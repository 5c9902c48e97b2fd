/** The repository (package repository): the cache-aside read paths, the
    write paths and the lookups by a unique attribute, over the user table
    `store` and the cache adapter `cache`. Every answer the table or the cache
    tier could give that the model does not compute (an error, the map a
    multi-get returns, the key the table assigns) arrives as a parameter. */
module Repository {
  import opened Model
  import opened Decimal
  import opened Cache

  // ---------------------------------------------------------------------
  // The user table

  /** Rows are filed under their own primary key, and no row has key 0
      (an insert with ID 0 gets its key from the table). */
  predicate ValidStore(store: map<int64, UserInfo>) {
    forall k :: k in store ==> store[k].id == k && k != 0
  }

  /** What `SELECT * ... WHERE id = ?` scans into a fresh struct: the row, or
      the zero struct when there is none. Its ID is positive exactly when a
      row with a positive key exists. */
  function RowById(store: map<int64, UserInfo>, id: int64): (row: UserInfo)
    requires ValidStore(store)
    ensures row.id > 0 <==> id in store && id > 0
    ensures row.id != 0 ==> id in store && row.id == id && row == store[id]
    ensures row.id == 0 ==> row == ZeroUser
  {
    if id in store then store[id] else ZeroUser
  }

  /** The rows `SELECT * ... WHERE id IN (ids)` returns: each stored row whose
      key is among `ids`, once, ordered by the first occurrence of its key. */
  function SelectIn(store: map<int64, UserInfo>, ids: seq<int64>): seq<UserInfo>
  {
    if ids == [] then []
    else
      var front := ids[..|ids| - 1];
      var v := ids[|ids| - 1];
      SelectIn(store, front) + (if v in store && v !in front then [store[v]] else [])
  }

  /** Every row the IN query returns is the stored row of one of the ids. */
  lemma {:induction false} SelectInSound(store: map<int64, UserInfo>, ids: seq<int64>, r: UserInfo)
    requires ValidStore(store)
    requires r in SelectIn(store, ids)
    ensures r.id in ids && r.id in store && store[r.id] == r
  {
    var front := ids[..|ids| - 1];
    if r in SelectIn(store, front) {
      SelectInSound(store, front, r);
      assert r.id in front;
    }
  }

  /** Every requested id that has a row contributes that row. */
  lemma {:induction false} SelectInComplete(store: map<int64, UserInfo>, ids: seq<int64>, v: int64)
    requires v in ids && v in store
    ensures store[v] in SelectIn(store, ids)
  {
    var front := ids[..|ids| - 1];
    if v in front {
      SelectInComplete(store, front, v);
    }
  }

  /** The IN query returns no row twice, however often an id is repeated. */
  lemma {:induction false} SelectInDistinct(store: map<int64, UserInfo>, ids: seq<int64>)
    requires ValidStore(store)
    ensures forall i, j :: 0 <= i < j < |SelectIn(store, ids)| ==> SelectIn(store, ids)[i].id != SelectIn(store, ids)[j].id
  {
    if ids != [] {
      var front := ids[..|ids| - 1];
      var v := ids[|ids| - 1];
      SelectInDistinct(store, front);
      if v in store && v !in front {
        var rows := SelectIn(store, front);
        forall i | 0 <= i < |rows|
          ensures rows[i].id != v
        {
          SelectInSound(store, front, rows[i]);
        }
      }
    }
  }

  /** The IN query returns nothing exactly when none of the ids has a row. */
  lemma SelectInEmpty(store: map<int64, UserInfo>, ids: seq<int64>)
    requires ValidStore(store)
    ensures SelectIn(store, ids) == [] <==> forall v :: v in ids ==> v !in store
  {
    if SelectIn(store, ids) == [] {
      forall v | v in ids
        ensures v !in store
      {
        if v in store {
          SelectInComplete(store, ids, v);
        }
      }
    } else {
      SelectInSound(store, ids, SelectIn(store, ids)[0]);
    }
  }

  /** The columns the lookups by attribute filter on. */
  datatype Column = Username | Email | Phone

  function ColumnOf(u: UserInfo, c: Column): string {
    match c
    case Username => u.username
    case Email => u.email
    case Phone => u.phone
  }

  /** `row` is a possible result of `SELECT * ... WHERE <c> = value` scanned
      into one struct: some matching row when there is one, else the zero struct. */
  ghost predicate WhereAnswer(store: map<int64, UserInfo>, c: Column, value: string, row: UserInfo) {
    if exists k :: k in store && ColumnOf(store[k], c) == value
    then row in store.Values && ColumnOf(row, c) == value
    else row == ZeroUser
  }

  // ---------------------------------------------------------------------
  // How the cache relates to the table

  /** Every cache entry holds the stored row of the id its key was made from. */
  predicate Coherent(store: map<int64, UserInfo>, entries: map<string, CacheEntry>) {
    forall key :: key in entries ==>
      entries[key].value.id in store
      && store[entries[key].value.id] == entries[key].value
      && key == GetUserInfoCacheKey(entries[key].value.id)
  }

  /** Under coherence, a hit for `id` is the stored row of `id`. */
  lemma CoherentHit(store: map<int64, UserInfo>, entries: map<string, CacheEntry>, id: int64)
    requires Coherent(store, entries)
    requires GetUserInfoCacheKey(id) in entries
    ensures id in store && entries[GetUserInfoCacheKey(id)].value == store[id]
  {
    CacheKeyInjective(entries[GetUserInfoCacheKey(id)].value.id, id);
  }

  /** Writing a stored row under its own key keeps the cache coherent. */
  lemma CoherentAfterPopulate(store: map<int64, UserInfo>, entries: map<string, CacheEntry>, id: int64, ttl: Duration)
    requires ValidStore(store) && Coherent(store, entries) && id in store
    ensures Coherent(store, entries[GetUserInfoCacheKey(id) := CacheEntry(store[id], ttl)])
  {
  }

  /** Multi-setting stored rows keeps the cache coherent. */
  lemma CoherentAfterMultiSet(store: map<int64, UserInfo>, entries: map<string, CacheEntry>, rows: seq<UserInfo>, ttl: Duration)
    requires Coherent(store, entries)
    requires forall i :: 0 <= i < |rows| ==> rows[i].id in store && store[rows[i].id] == rows[i]
    ensures Coherent(store, entries + WithTtl(ValueMap(rows), ttl))
  {
    var added := WithTtl(ValueMap(rows), ttl);
    var merged := entries + added;
    forall key | key in merged
      ensures merged[key].value.id in store && store[merged[key].value.id] == merged[key].value
      ensures key == GetUserInfoCacheKey(merged[key].value.id)
    {
      if key in added {
        ValueMapSound(rows, key);
        var r := ValueMap(rows)[key];
        var i :| 0 <= i < |rows| && rows[i] == r;
        assert merged[key].value == r;
      } else {
        assert merged[key] == entries[key];
      }
    }
  }

  /** Patching row k and dropping k's cache entry keeps the cache coherent. */
  lemma CoherentAfterUpdate(store: map<int64, UserInfo>, entries: map<string, CacheEntry>, k: int64, patch: UserInfo)
    requires ValidStore(store) && Coherent(store, entries) && k in store
    ensures Coherent(store[k := Patch(store[k], patch)], entries - {GetUserInfoCacheKey(k)})
  {
  }

  // ---------------------------------------------------------------------
  // The single read, as a function of the state before it

  /** Answers of the cache tier and the table during one GetUserInfo. */
  datatype ReadFaults = ReadFaults(cacheGet: Option<Error>, storeRead: Option<Error>, cacheSet: Option<Error>)

  const NoReadFaults := ReadFaults(None, None, None)

  /** GetUserInfo reaches the table: the cache answered without error and had nothing. */
  predicate ReadQueriesStore(entries: map<string, CacheEntry>, id: int64, faults: ReadFaults) {
    faults.cacheGet.None? && GetUserInfoCacheKey(id) !in entries
  }

  /** The error GetUserInfo returns, if any. */
  function ReadError(store: map<int64, UserInfo>, entries: map<string, CacheEntry>, id: int64, faults: ReadFaults): Option<Error>
    requires ValidStore(store)
  {
    if faults.cacheGet.Some? then faults.cacheGet
    else if GetUserInfoCacheKey(id) in entries then None
    else if faults.storeRead.Some? then faults.storeRead
    else if RowById(store, id).id > 0 then faults.cacheSet
    else None
  }

  /** The record GetUserInfo returns when it returns no error. */
  function ReadItem(store: map<int64, UserInfo>, entries: map<string, CacheEntry>, id: int64): UserInfo
    requires ValidStore(store)
  {
    if GetUserInfoCacheKey(id) in entries then entries[GetUserInfoCacheKey(id)].value else RowById(store, id)
  }

  /** The cache after GetUserInfo: populated only after a table read that
      found a row with a positive ID and a set that succeeded. */
  function ReadEntries(store: map<int64, UserInfo>, entries: map<string, CacheEntry>, id: int64, faults: ReadFaults): map<string, CacheEntry>
    requires ValidStore(store)
  {
    if ReadQueriesStore(entries, id, faults) && faults.storeRead.None? && RowById(store, id).id > 0 && faults.cacheSet.None?
    then entries[GetUserInfoCacheKey(id) := CacheEntry(RowById(store, id), UserInfoTtl)]
    else entries
  }

  /** Cache transparency: under coherence a successful read returns the
      table's answer, cache hit or not, and leaves the cache coherent. */
  lemma ReadIsTransparent(store: map<int64, UserInfo>, entries: map<string, CacheEntry>, id: int64, faults: ReadFaults)
    requires ValidStore(store) && Coherent(store, entries)
    ensures ReadItem(store, entries, id) == RowById(store, id)
    ensures Coherent(store, ReadEntries(store, entries, id, faults))
  {
    if GetUserInfoCacheKey(id) in entries {
      CoherentHit(store, entries, id);
    }
    if RowById(store, id).id > 0 {
      CoherentAfterPopulate(store, entries, id, UserInfoTtl);
    }
  }

  // ---------------------------------------------------------------------
  // The batch read, as functions of the requested ids and the multi-get map

  /** cast.ToString(v): the key the batch loop looks the multi-get map up with. */
  function IdText(v: int64): string {
    FormatInt(v)
  }

  /** The requested ids found in the multi-get map, in order, with their repeats. */
  function HitIds(ids: seq<int64>, itemMap: map<string, UserInfo>): seq<int64> {
    if ids == [] then []
    else HitIds(ids[..|ids| - 1], itemMap) + (if IdText(ids[|ids| - 1]) in itemMap then [ids[|ids| - 1]] else [])
  }

  /** The requested ids not found in the multi-get map, in order, with their repeats. */
  function MissedIds(ids: seq<int64>, itemMap: map<string, UserInfo>): seq<int64> {
    if ids == [] then []
    else MissedIds(ids[..|ids| - 1], itemMap) + (if IdText(ids[|ids| - 1]) !in itemMap then [ids[|ids| - 1]] else [])
  }

  /** The records the batch loop appends for the hits, in order. */
  function CachedItems(ids: seq<int64>, itemMap: map<string, UserInfo>): seq<UserInfo> {
    if ids == [] then []
    else
      var v := ids[|ids| - 1];
      CachedItems(ids[..|ids| - 1], itemMap) + (if IdText(v) in itemMap then [itemMap[IdText(v)]] else [])
  }

  /** Every requested id, with its repeats, lands in exactly one of the two lists. */
  lemma {:induction false} PartitionIsExact(ids: seq<int64>, itemMap: map<string, UserInfo>)
    ensures multiset(HitIds(ids, itemMap)) + multiset(MissedIds(ids, itemMap)) == multiset(ids)
    ensures |HitIds(ids, itemMap)| + |MissedIds(ids, itemMap)| == |ids|
  {
    if ids != [] {
      var front := ids[..|ids| - 1];
      var v := ids[|ids| - 1];
      PartitionIsExact(front, itemMap);
      assert ids == front + [v];
      assert multiset(ids) == multiset(front) + multiset{v};
      if IdText(v) in itemMap {
        assert HitIds(ids, itemMap) == HitIds(front, itemMap) + [v];
        assert MissedIds(ids, itemMap) == MissedIds(front, itemMap);
      } else {
        assert HitIds(ids, itemMap) == HitIds(front, itemMap);
        assert MissedIds(ids, itemMap) == MissedIds(front, itemMap) + [v];
      }
    }
  }

  /** The hits' records line up with the hit ids: the i-th record is the one
      the multi-get map holds under the text of the i-th hit id. */
  lemma {:induction false} CachedItemsAlign(ids: seq<int64>, itemMap: map<string, UserInfo>)
    ensures |CachedItems(ids, itemMap)| == |HitIds(ids, itemMap)|
    ensures forall i :: 0 <= i < |HitIds(ids, itemMap)| ==>
      IdText(HitIds(ids, itemMap)[i]) in itemMap
      && CachedItems(ids, itemMap)[i] == itemMap[IdText(HitIds(ids, itemMap)[i])]
  {
    if ids != [] {
      CachedItemsAlign(ids[..|ids| - 1], itemMap);
    }
  }

  /** An id is missed exactly when its text is not a key of the multi-get
      map; a hit contributes the record stored under that text. */
  lemma {:induction false} PartitionMembership(ids: seq<int64>, itemMap: map<string, UserInfo>, v: int64)
    ensures v in MissedIds(ids, itemMap) <==> v in ids && IdText(v) !in itemMap
    ensures v in HitIds(ids, itemMap) <==> v in ids && IdText(v) in itemMap
    ensures v in ids && IdText(v) in itemMap ==> itemMap[IdText(v)] in CachedItems(ids, itemMap)
  {
    if ids != [] {
      var front := ids[..|ids| - 1];
      PartitionMembership(front, itemMap, v);
      assert ids == front + [ids[|ids| - 1]];
    }
  }

  /** When every key of the multi-get map is a key the adapter builds
      ("user:info:<id>"), no bare id text matches, so every id is missed. */
  lemma {:induction false} AdapterKeysNeverHit(ids: seq<int64>, itemMap: map<string, UserInfo>)
    requires forall k :: k in itemMap ==> IsUserInfoCacheKey(k)
    ensures HitIds(ids, itemMap) == [] && CachedItems(ids, itemMap) == []
    ensures MissedIds(ids, itemMap) == ids
  {
    if ids != [] {
      var front := ids[..|ids| - 1];
      AdapterKeysNeverHit(front, itemMap);
      IdTextIsNotCacheKey(ids[|ids| - 1], 0);
      assert ids == front + [ids[|ids| - 1]];
    }
  }

  /** The rows the table scans for the IN query, in whatever order it sends
      them: the rows of `SelectIn`, each once. They are stored rows of
      requested ids, and every requested id that has a row contributes it. */
  lemma FetchedRows(store: map<int64, UserInfo>, ids: seq<int64>, fetched: seq<UserInfo>)
    requires ValidStore(store)
    requires multiset(fetched) == multiset(SelectIn(store, ids))
    ensures |fetched| == |SelectIn(store, ids)|
    ensures forall i :: 0 <= i < |fetched| ==>
      fetched[i].id in ids && fetched[i].id in store && store[fetched[i].id] == fetched[i]
    ensures forall v :: v in ids && v in store ==> store[v] in fetched
  {
    assert |multiset(fetched)| == |multiset(SelectIn(store, ids))|;
    forall i | 0 <= i < |fetched|
      ensures fetched[i].id in ids && fetched[i].id in store && store[fetched[i].id] == fetched[i]
    {
      assert fetched[i] in multiset(fetched);
      SelectInSound(store, ids, fetched[i]);
    }
    forall v | v in ids && v in store
      ensures store[v] in fetched
    {
      SelectInComplete(store, ids, v);
      assert store[v] in multiset(SelectIn(store, ids));
    }
  }

  /** When some id missed, the IN query asks for every id, so a hit whose id
      has a row shows up twice in the batch result: once from the cache and
      once among the fetched rows. */
  lemma BatchRepeatsCachedRows(store: map<int64, UserInfo>, ids: seq<int64>, itemMap: map<string, UserInfo>,
                               fetched: seq<UserInfo>, v: int64)
    requires ValidStore(store)
    requires MissedIds(ids, itemMap) != []
    requires multiset(fetched) == multiset(SelectIn(store, ids))
    requires v in ids && v in store && IdText(v) in itemMap && itemMap[IdText(v)] == store[v]
    ensures multiset(CachedItems(ids, itemMap) + fetched)[store[v]] >= 2
  {
    PartitionMembership(ids, itemMap, v);
    FetchedRows(store, ids, fetched);
  }

  /** The loop of BatchGetUserInfo: each id, in order, goes to the hits'
      records when its text is a key of the multi-get map, else to the missed ids. */
  method SplitByCache(ids: seq<int64>, itemMap: map<string, UserInfo>) returns (ret: seq<UserInfo>, missedID: seq<int64>)
    ensures ret == CachedItems(ids, itemMap)
    ensures missedID == MissedIds(ids, itemMap)
  {
    ret, missedID := [], [];
    for n := 0 to |ids|
      invariant ret == CachedItems(ids[..n], itemMap)
      invariant missedID == MissedIds(ids[..n], itemMap)
    {
      assert ids[..n + 1][..n] == ids[..n];
      var v := ids[n];
      var key := IdText(v);
      if key !in itemMap {
        missedID := missedID + [v];
        continue;
      }
      ret := ret + [itemMap[key]];
    }
    assert ids[..|ids|] == ids;
  }

  /** Answers of the cache tier and the table during one BatchGetUserInfo. */
  datatype BatchFaults = BatchFaults(multiGet: Option<Error>, storeRead: Option<Error>, multiSet: Option<Error>)

  /** errors.Wrap contexts of the write paths. */
  const UpdateContext: string := "[repo] update UserInfo err"
  const CreateContext: string := "[repo] create UserInfo err"

  /** The key a created row gets: its own ID when set, otherwise the one the table assigns. */
  function RowKey(data: UserInfo, autoId: int64): int64 {
    if data.id != 0 then data.id else autoId
  }

  // ---------------------------------------------------------------------
  // The repository

  class UserInfoRepo {
    /** The user table, keyed by primary key. */
    var store: map<int64, UserInfo>
    /** The cache adapter. */
    const cache: UserInfoCache
    /** How many queries this repository has sent to the table. */
    ghost var queries: nat

    /** NewUserInfo. */
    constructor (db: map<int64, UserInfo>, cache: UserInfoCache)
      requires ValidStore(db)
      ensures store == db && this.cache == cache && queries == 0
    {
      store := db;
      this.cache := cache;
      queries := 0;
    }

    /** One row matching `c = value`, or the zero struct. */
    method SelectWhere(c: Column, value: string) returns (row: UserInfo)
      ensures WhereAnswer(store, c, value, row)
    {
      if k :| k in store && ColumnOf(store[k], c) == value {
        row := store[k];
      } else {
        row := ZeroUser;
      }
    }

    method GetUserByUsername(username: string, fault: Option<Error>) returns (ret: Option<UserInfo>, err: Option<Error>)
      modifies this`queries
      ensures queries == old(queries) + 1
      ensures fault.Some? ==> ret.None? && err == fault
      ensures fault.None? ==> err.None? && ret.Some? && WhereAnswer(store, Username, username, ret.value)
    {
      queries := queries + 1;
      if fault.Some? {
        return None, fault;
      }
      var item := SelectWhere(Username, username);
      return Some(item), None;
    }

    /** As written: filters on the username column with the email. */
    method GetUserByEmail(email: string, fault: Option<Error>) returns (ret: Option<UserInfo>, err: Option<Error>)
      modifies this`queries
      ensures queries == old(queries) + 1
      ensures fault.Some? ==> ret.None? && err == fault
      ensures fault.None? ==> err.None? && ret.Some? && WhereAnswer(store, Username, email, ret.value)
    {
      queries := queries + 1;
      if fault.Some? {
        return None, fault;
      }
      var item := SelectWhere(Username, email);
      return Some(item), None;
    }

    /** As written: filters on the username column with the phone number. */
    method GetUserByPhone(phone: string, fault: Option<Error>) returns (ret: Option<UserInfo>, err: Option<Error>)
      modifies this`queries
      ensures queries == old(queries) + 1
      ensures fault.Some? ==> ret.None? && err == fault
      ensures fault.None? ==> err.None? && ret.Some? && WhereAnswer(store, Username, phone, ret.value)
    {
      queries := queries + 1;
      if fault.Some? {
        return None, fault;
      }
      var item := SelectWhere(Username, phone);
      return Some(item), None;
    }

    /** The lookup by email as evidently intended, with the email query. */
    method GetUserByEmailIntended(email: string, fault: Option<Error>) returns (ret: Option<UserInfo>, err: Option<Error>)
      modifies this`queries
      ensures queries == old(queries) + 1
      ensures fault.Some? ==> ret.None? && err == fault
      ensures fault.None? ==> err.None? && ret.Some? && WhereAnswer(store, Email, email, ret.value)
    {
      queries := queries + 1;
      if fault.Some? {
        return None, fault;
      }
      var item := SelectWhere(Email, email);
      return Some(item), None;
    }

    /** The lookup by phone as evidently intended, with the phone query. */
    method GetUserByPhoneIntended(phone: string, fault: Option<Error>) returns (ret: Option<UserInfo>, err: Option<Error>)
      modifies this`queries
      ensures queries == old(queries) + 1
      ensures fault.Some? ==> ret.None? && err == fault
      ensures fault.None? ==> err.None? && ret.Some? && WhereAnswer(store, Phone, phone, ret.value)
    {
      queries := queries + 1;
      if fault.Some? {
        return None, fault;
      }
      var item := SelectWhere(Phone, phone);
      return Some(item), None;
    }

    /** Inserts `data`; `fault` is the table's answer and `autoId` the key it
        gives a row inserted with ID 0. The table reports success only for a
        row whose key is free. The cache is not touched. */
    method CreateUserInfo(data: UserInfo, fault: Option<Error>, autoId: int64) returns (id: int64, err: Option<Error>)
      requires ValidStore(store)
      requires fault.None? ==> RowKey(data, autoId) != 0 && RowKey(data, autoId) !in store
      modifies this`store, this`queries
      ensures ValidStore(store)
      ensures queries == old(queries) + 1
      ensures unchanged(cache)
      ensures fault.Some? ==> id == 0 && err == Some(Wrapped(CreateContext, fault.value)) && store == old(store)
      ensures fault.None? ==> err.None? && id == RowKey(data, autoId) && store == old(store)[id := data.(id := id)]
      ensures old(Coherent(store, cache.entries)) ==> Coherent(store, cache.entries)
    {
      queries := queries + 1;
      if fault.Some? {
        return 0, Some(Wrapped(CreateContext, fault.value));
      }
      var row := data.(id := RowKey(data, autoId));
      store := store[row.id := row];
      return row.id, None;
    }

    /** Cache-aside read of one record. */
    method GetUserInfo(id: int64, faults: ReadFaults) returns (ret: Option<UserInfo>, err: Option<Error>)
      requires ValidStore(store)
      modifies this`queries, cache
      ensures store == old(store)
      ensures err.None? <==> ret.Some?
      // a cache error is returned; neither tier is touched
      ensures faults.cacheGet.Some? ==>
        ret.None? && err == faults.cacheGet && queries == old(queries) && cache.entries == old(cache.entries)
      // a hit is returned; the table is not queried and the cache is unchanged
      ensures faults.cacheGet.None? && GetUserInfoCacheKey(id) in old(cache.entries) ==>
        ret == Some(old(cache.entries)[GetUserInfoCacheKey(id)].value) && err.None?
        && queries == old(queries) && cache.entries == old(cache.entries)
      // a miss queries the table once
      ensures ReadQueriesStore(old(cache.entries), id, faults) ==> queries == old(queries) + 1
      ensures ReadQueriesStore(old(cache.entries), id, faults) && faults.storeRead.Some? ==>
        ret.None? && err == faults.storeRead && cache.entries == old(cache.entries)
      ensures ReadQueriesStore(old(cache.entries), id, faults) && faults.storeRead.None? && RowById(store, id).id <= 0 ==>
        ret == Some(RowById(store, id)) && err.None? && cache.entries == old(cache.entries)
      ensures ReadQueriesStore(old(cache.entries), id, faults) && faults.storeRead.None? && RowById(store, id).id > 0 ==>
        err == faults.cacheSet
        && ret == (if faults.cacheSet.None? then Some(RowById(store, id)) else None)
        && cache.entries == (if faults.cacheSet.None?
                             then old(cache.entries)[GetUserInfoCacheKey(id) := CacheEntry(RowById(store, id), UserInfoTtl)]
                             else old(cache.entries))
      // the same, as functions of the state before the call
      ensures err == ReadError(store, old(cache.entries), id, faults)
      ensures ret.Some? ==> ret.value == ReadItem(store, old(cache.entries), id)
      ensures cache.entries == ReadEntries(store, old(cache.entries), id, faults)
      // a coherent cache stays coherent and serves what the table holds
      ensures old(Coherent(store, cache.entries)) ==> Coherent(store, cache.entries)
      ensures old(Coherent(store, cache.entries)) && ret.Some? ==> ret.value == RowById(store, id)
    {
      ghost var entries0 := cache.entries;
      ghost var coherent0 := Coherent(store, entries0);
      if coherent0 {
        ReadIsTransparent(store, entries0, id, faults);
      }
      var item;
      item, err := cache.GetUserInfoCache(id, faults.cacheGet);
      if err.Some? {
        return None, err;
      }
      if item.Some? {
        return item, None;
      }
      queries := queries + 1;
      if faults.storeRead.Some? {
        return None, faults.storeRead;
      }
      var data := RowById(store, id);
      if data.id > 0 {
        err := cache.SetUserInfoCache(id, Some(data), UserInfoTtl, faults.cacheSet);
        if err.Some? {
          return None, err;
        }
      }
      return Some(data), None;
    }

    /** Cache-aside read of many records. The multi-get answer is `found`
        unless `faults.multiGet` says the tier failed; the IN query's answer
        is `fetched` unless `faults.storeRead` says the table failed. The
        table returns the rows of `SelectIn`, in an order of its choosing. */
    method BatchGetUserInfo(ids: seq<int64>, faults: BatchFaults, found: map<string, UserInfo>, fetched: seq<UserInfo>)
      returns (ret: Option<seq<UserInfo>>, err: Option<Error>)
      requires ValidStore(store)
      requires faults.storeRead.None? ==> multiset(fetched) == multiset(SelectIn(store, ids))
      modifies this`queries, cache
      ensures store == old(store)
      ensures err.None? <==> ret.Some?
      // the table is queried at most once, and only when some id missed
      ensures queries == old(queries) + (if faults.multiGet.None? && MissedIds(ids, found) != [] then 1 else 0)
      ensures faults.multiGet.Some? ==>
        ret.None? && err == faults.multiGet && cache.entries == old(cache.entries)
      ensures faults.multiGet.None? && MissedIds(ids, found) == [] ==>
        ret == Some(CachedItems(ids, found)) && err.None? && cache.entries == old(cache.entries)
      ensures faults.multiGet.None? && MissedIds(ids, found) != [] && faults.storeRead.Some? ==>
        ret.None? && err == faults.storeRead && cache.entries == old(cache.entries)
      // the query asks for all ids, not only the missed ones
      ensures faults.multiGet.None? && MissedIds(ids, found) != [] && faults.storeRead.None? && SelectIn(store, ids) == [] ==>
        ret == Some(CachedItems(ids, found)) && err.None? && cache.entries == old(cache.entries)
      ensures faults.multiGet.None? && MissedIds(ids, found) != [] && faults.storeRead.None? && SelectIn(store, ids) != [] ==>
        err == faults.multiSet
        && ret == (if faults.multiSet.None? then Some(CachedItems(ids, found) + fetched) else None)
        && cache.entries == (if faults.multiSet.None?
                             then old(cache.entries) + WithTtl(ValueMap(fetched), UserInfoTtl)
                             else old(cache.entries))
      ensures old(Coherent(store, cache.entries)) ==> Coherent(store, cache.entries)
    {
      ghost var entries0 := cache.entries;
      if faults.storeRead.None? {
        FetchedRows(store, ids, fetched);
        if Coherent(store, entries0) {
          CoherentAfterMultiSet(store, entries0, fetched, UserInfoTtl);
        }
      }
      var itemMap;
      ghost var keys;
      itemMap, err, keys := cache.MultiGetUserInfoCache(ids, faults.multiGet, found);
      if err.Some? {
        return None, err;
      }
      var items, missedID := SplitByCache(ids, itemMap.value);
      if |missedID| > 0 {
        queries := queries + 1;
        if faults.storeRead.Some? {
          return None, faults.storeRead;
        }
        var missedData := fetched;
        if |missedData| > 0 {
          items := items + missedData;
          err := cache.MultiSetUserInfoCache(missedData, UserInfoTtl, faults.multiSet);
          if err.Some? {
            return None, err;
          }
        }
      }
      return Some(items), None;
    }

    /** Reads the record (through the cache), patches its row in the table
        and then deletes the cache entry of `id`, ignoring the delete's error. */
    method UpdateUserInfo(id: int64, data: UserInfo, readFaults: ReadFaults, updateFault: Option<Error>, delFault: Option<Error>)
      returns (err: Option<Error>)
      requires ValidStore(store)
      modifies this, cache
      ensures ValidStore(store)
      // the read fails: wrapped error, no table update, no delete
      ensures ReadError(old(store), old(cache.entries), id, readFaults).Some? ==>
        err == Some(Wrapped(UpdateContext, ReadError(old(store), old(cache.entries), id, readFaults).value))
        && store == old(store) && cache.entries == old(cache.entries)
        && queries == old(queries) + (if ReadQueriesStore(old(cache.entries), id, readFaults) then 1 else 0)
      // the read succeeds: one more query, the update
      ensures ReadError(old(store), old(cache.entries), id, readFaults).None? ==>
        var item := ReadItem(old(store), old(cache.entries), id);
        var afterRead := ReadEntries(old(store), old(cache.entries), id, readFaults);
        queries == old(queries) + (if ReadQueriesStore(old(cache.entries), id, readFaults) then 2 else 1)
        && err == updateFault
        && (updateFault.Some? ==> store == old(store) && cache.entries == afterRead)
        && (updateFault.None? ==>
              store == (if item.id in old(store) then old(store)[item.id := Patch(old(store)[item.id], data)] else old(store))
              && cache.entries == (if delFault.None? then afterRead - {GetUserInfoCacheKey(id)} else afterRead))
      // over a coherent cache the row of `id` is the one patched, and the cache stays coherent unless the delete failed
      ensures old(Coherent(store, cache.entries)) && err.None? ==>
        store == (if id in old(store) then old(store)[id := Patch(old(store)[id], data)] else old(store))
      ensures old(Coherent(store, cache.entries)) && (err.Some? || delFault.None?) ==> Coherent(store, cache.entries)
    {
      ghost var store0 := store;
      ghost var coherent0 := Coherent(store, cache.entries);
      var item, readErr := GetUserInfo(id, readFaults);
      if readErr.Some? {
        return Some(Wrapped(UpdateContext, readErr.value));
      }
      queries := queries + 1;
      if updateFault.Some? {
        return updateFault;
      }
      var row := item.value;
      if row.id in store {
        if coherent0 {
          CoherentAfterUpdate(store, cache.entries, row.id, data);
        }
        store := store[row.id := Patch(store[row.id], data)];
      }
      var ignored := cache.DelUserInfoCache(id, delFault);
      return None;
    }
  }

  // ---------------------------------------------------------------------
  // The lookups by email and by phone

  const AmyEmail: string := "amy@example.com"
  const AmyStore: map<int64, UserInfo> := map[1 := UserInfo(1, "amy", AmyEmail, "555-0100", "", 1, 0, 0)]

  /** As written, the lookup by email filters the username column, so a
      user stored with that email is not found. */
  lemma EmailLookupAsWrittenMisses(row: UserInfo)
    requires WhereAnswer(AmyStore, Username, AmyEmail, row)
    ensures 1 in AmyStore && AmyStore[1].email == AmyEmail
    ensures row == ZeroUser && row.email != AmyEmail
  {
    assert AmyStore[1].username != AmyEmail;
    assert !exists k :: k in AmyStore && ColumnOf(AmyStore[k], Username) == AmyEmail;
  }

  /** The same for the lookup by phone. */
  lemma PhoneLookupAsWrittenMisses(row: UserInfo)
    requires WhereAnswer(AmyStore, Username, "555-0100", row)
    ensures 1 in AmyStore && AmyStore[1].phone == "555-0100"
    ensures row == ZeroUser && row.phone != "555-0100"
  {
    assert AmyStore[1].username != "555-0100";
    assert !exists k :: k in AmyStore && ColumnOf(AmyStore[k], Username) == "555-0100";
  }

  /** With the intended column, a stored value is always found. */
  lemma AttributeLookupIntendedFinds(store: map<int64, UserInfo>, c: Column, value: string, row: UserInfo)
    requires WhereAnswer(store, c, value, row)
    requires exists k :: k in store && ColumnOf(store[k], c) == value
    ensures ColumnOf(row, c) == value
    ensures exists k :: k in store && store[k] == row
  {
  }
}
