/** The cache adapter (package cache): derives the key of a user record and
    offers get, set, multi-get, multi-set and delete over a key-value tier.
    The tier is the map `entries`; what the tier itself answers (an error, or
    the map a multi-get returns) arrives as a parameter. */
module Cache {
  import opened Model
  import opened Decimal

  /** The fixed part of every key, "user:info:%d" without its verb. */
  const UserInfoKeyPrefix: string := "user:info:"

  /** GetUserInfoCacheKey: the prefix followed by the decimal id. */
  function GetUserInfoCacheKey(id: int64): string {
    UserInfoKeyPrefix + FormatInt(id)
  }

  predicate IsUserInfoCacheKey(key: string) {
    |key| > |UserInfoKeyPrefix| && key[..|UserInfoKeyPrefix|] == UserInfoKeyPrefix
  }

  /** A key is the prefix followed by a signed decimal that reads back as the id. */
  lemma CacheKeyReadsBack(id: int64)
    ensures IsUserInfoCacheKey(GetUserInfoCacheKey(id))
    ensures IsSignedDecimal(GetUserInfoCacheKey(id)[|UserInfoKeyPrefix|..])
    ensures ParseInt(GetUserInfoCacheKey(id)[|UserInfoKeyPrefix|..]) == id
  {
    var key := GetUserInfoCacheKey(id);
    assert key[..|UserInfoKeyPrefix|] == UserInfoKeyPrefix;
    assert key[|UserInfoKeyPrefix|..] == FormatInt(id);
    FormatIntRoundTrip(id);
  }

  /** Distinct ids never share a cache entry. */
  lemma CacheKeyInjective(a: int64, b: int64)
    ensures GetUserInfoCacheKey(a) == GetUserInfoCacheKey(b) <==> a == b
  {
    CacheKeyReadsBack(a);
    CacheKeyReadsBack(b);
  }

  /** The bare decimal text of an id (what cast.ToString yields) is never a
      key of this adapter: it starts with '-' or a digit, a key with 'u'. */
  lemma IdTextIsNotCacheKey(v: int64, w: int64)
    ensures !IsUserInfoCacheKey(FormatInt(v))
    ensures FormatInt(v) != GetUserInfoCacheKey(w)
  {
    FormatIntShape(v);
    CacheKeyReadsBack(w);
  }

  /** A cache value: the record and the time-to-live it was written with. */
  datatype CacheEntry = CacheEntry(value: UserInfo, ttl: Duration)

  /** The record stored under `key`, if any. */
  function Lookup(entries: map<string, CacheEntry>, key: string): Option<UserInfo>
  {
    if key in entries then Some(entries[key].value) else None
  }

  /** The key-to-record map that MultiSetUserInfoCache hands to the tier:
      the records taken in order, each under the key of its own id, so that a
      later record replaces an earlier one with the same id. */
  function ValueMap(data: seq<UserInfo>): map<string, UserInfo>
  {
    if data == [] then map[]
    else ValueMap(data[..|data| - 1])[GetUserInfoCacheKey(data[|data| - 1].id) := data[|data| - 1]]
  }

  /** The keys of the value map are exactly the keys of the records' ids. */
  lemma {:induction false} ValueMapKeys(data: seq<UserInfo>, key: string)
    ensures key in ValueMap(data) <==> exists i :: 0 <= i < |data| && key == GetUserInfoCacheKey(data[i].id)
  {
    if data != [] {
      var front := data[..|data| - 1];
      ValueMapKeys(front, key);
      if exists i :: 0 <= i < |front| && key == GetUserInfoCacheKey(front[i].id) {
        var i :| 0 <= i < |front| && key == GetUserInfoCacheKey(front[i].id);
        assert data[i] == front[i];
      }
      if exists i :: 0 <= i < |data| && key == GetUserInfoCacheKey(data[i].id) {
        var i :| 0 <= i < |data| && key == GetUserInfoCacheKey(data[i].id);
        if i < |front| {
          assert front[i] == data[i];
        }
      }
    }
  }

  /** Every value of the value map is one of the records, filed under the
      key of its own id. */
  lemma {:induction false} ValueMapSound(data: seq<UserInfo>, key: string)
    requires key in ValueMap(data)
    ensures key == GetUserInfoCacheKey(ValueMap(data)[key].id)
    ensures ValueMap(data)[key] in data
  {
    var front := data[..|data| - 1];
    if key != GetUserInfoCacheKey(data[|data| - 1].id) {
      ValueMapSound(front, key);
      assert ValueMap(front)[key] in front;
    }
  }

  /** No record after position i has the id of the record at i. */
  predicate LastOfItsId(data: seq<UserInfo>, i: nat)
    requires i < |data|
  {
    forall j :: i < j < |data| ==> data[j].id != data[i].id
  }

  /** For duplicate ids the later record wins: a record with no later record
      of the same id is the one stored under its key. */
  lemma {:induction false} ValueMapLastWins(data: seq<UserInfo>, i: nat)
    requires i < |data| && LastOfItsId(data, i)
    ensures GetUserInfoCacheKey(data[i].id) in ValueMap(data)
    ensures ValueMap(data)[GetUserInfoCacheKey(data[i].id)] == data[i]
  {
    var last := |data| - 1;
    var front := data[..last];
    if i < last {
      assert data[last].id != data[i].id;
      CacheKeyInjective(data[last].id, data[i].id);
      assert LastOfItsId(front, i) by {
        forall j | i < j < |front|
          ensures front[j].id != front[i].id
        {
          assert front[j] == data[j];
        }
      }
      ValueMapLastWins(front, i);
      assert front[i] == data[i];
    }
  }

  /** The cache entries the tier holds after a multi-set of `m` with `duration`. */
  function WithTtl(m: map<string, UserInfo>, duration: Duration): map<string, CacheEntry>
  {
    map k | k in m :: CacheEntry(m[k], duration)
  }

  /** The key list MultiGetUserInfoCache sends: one key per id, in order. */
  method CacheKeysFor(ids: seq<int64>) returns (keys: seq<string>)
    ensures |keys| == |ids|
    ensures forall i :: 0 <= i < |ids| ==> keys[i] == GetUserInfoCacheKey(ids[i])
  {
    keys := [];
    for n := 0 to |ids|
      invariant |keys| == n
      invariant forall i :: 0 <= i < n ==> keys[i] == GetUserInfoCacheKey(ids[i])
    {
      keys := keys + [GetUserInfoCacheKey(ids[n])];
    }
  }

  /** The map MultiSetUserInfoCache builds, one assignment per record. */
  method ValueMapFor(data: seq<UserInfo>) returns (valMap: map<string, UserInfo>)
    ensures valMap == ValueMap(data)
  {
    valMap := map[];
    for n := 0 to |data|
      invariant valMap == ValueMap(data[..n])
    {
      assert data[..n + 1][..n] == data[..n];
      valMap := valMap[GetUserInfoCacheKey(data[n].id) := data[n]];
    }
    assert data[..|data|] == data;
  }

  /** The adapter over one key-value tier. */
  class UserInfoCache {
    /** What the tier holds, key by key. */
    var entries: map<string, CacheEntry>

    /** NewUserInfoCache: wraps the shared tier, whose keys, written earlier
        or by another process, stay visible. */
    constructor (tier: map<string, CacheEntry>)
      ensures entries == tier
    {
      entries := tier;
    }

    /** Stores `data` under the key of `id`, unless `data` is nil or `id` is 0.
        `fault` is the tier's answer to the set. */
    method SetUserInfoCache(id: int64, data: Option<UserInfo>, duration: Duration, fault: Option<Error>)
      returns (err: Option<Error>)
      modifies this
      ensures data.None? || id == 0 ==> err.None? && entries == old(entries)
      ensures data.Some? && id != 0 ==> err == fault
      ensures data.Some? && id != 0 && fault.None? ==>
        entries == old(entries)[GetUserInfoCacheKey(id) := CacheEntry(data.value, duration)]
      ensures data.Some? && id != 0 && fault.Some? ==> entries == old(entries)
    {
      if data.None? || id == 0 {
        return None;
      }
      var cacheKey := GetUserInfoCacheKey(id);
      if fault.Some? {
        return fault;
      }
      entries := entries[cacheKey := CacheEntry(data.value, duration)];
      return None;
    }

    /** Reads the record under the key of `id`: nil data and the tier's error
        when it fails, otherwise the stored record, or nil when there is none. */
    method GetUserInfoCache(id: int64, fault: Option<Error>) returns (data: Option<UserInfo>, err: Option<Error>)
      ensures fault.Some? ==> data.None? && err == fault
      ensures fault.None? ==> err.None? && data == Lookup(entries, GetUserInfoCacheKey(id))
      ensures data.Some? ==> GetUserInfoCacheKey(id) in entries && data.value == entries[GetUserInfoCacheKey(id)].value
    {
      var cacheKey := GetUserInfoCacheKey(id);
      if fault.Some? {
        return None, fault;
      }
      return Lookup(entries, cacheKey), None;
    }

    /** Sends the keys of all `ids` to the tier in one round trip. The tier's
        answer is `fault` or else the map `found`, which is returned as it is;
        on a fault the map is nil. `keys` is the list that was sent. */
    method MultiGetUserInfoCache(ids: seq<int64>, fault: Option<Error>, found: map<string, UserInfo>)
      returns (items: Option<map<string, UserInfo>>, err: Option<Error>, ghost keys: seq<string>)
      ensures |keys| == |ids|
      ensures forall i :: 0 <= i < |ids| ==> keys[i] == GetUserInfoCacheKey(ids[i])
      ensures fault.Some? ==> items.None? && err == fault
      ensures fault.None? ==> items == Some(found) && err.None?
    {
      var sent := CacheKeysFor(ids);
      keys := sent;
      if fault.Some? {
        return None, fault, keys;
      }
      return Some(found), None, keys;
    }

    /** Writes every record under the key of its own id, in one round trip;
        for duplicate ids the later record wins. */
    method MultiSetUserInfoCache(data: seq<UserInfo>, duration: Duration, fault: Option<Error>)
      returns (err: Option<Error>)
      modifies this
      ensures err == fault
      ensures fault.None? ==> entries == old(entries) + WithTtl(ValueMap(data), duration)
      ensures fault.Some? ==> entries == old(entries)
    {
      var valMap := ValueMapFor(data);
      if fault.Some? {
        return fault;
      }
      entries := entries + WithTtl(valMap, duration);
      return None;
    }

    /** Removes the entry under the key of `id` and nothing else, and passes
        on the tier's error. */
    method DelUserInfoCache(id: int64, fault: Option<Error>) returns (err: Option<Error>)
      modifies this
      ensures err == fault
      ensures fault.None? ==> entries == old(entries) - {GetUserInfoCacheKey(id)}
      ensures fault.Some? ==> entries == old(entries)
      ensures forall k :: k != GetUserInfoCacheKey(id) ==> Lookup(entries, k) == Lookup(old(entries), k)
    {
      var cacheKey := GetUserInfoCacheKey(id);
      if fault.Some? {
        return fault;
      }
      entries := entries - {cacheKey};
      return None;
    }
  }
}
