/** Callers of the repository that chain several calls, with no failure of
    either tier, and what the contracts of the repository let them conclude. */
module Scenarios {
  import opened Model
  import opened Cache
  import opened Repository

  /** Reading a stored record with a positive id twice: both reads return the
      stored row, the first sends at most one query and the second, served
      from the cache, sends none. `between` is the query count after the
      first read. */
  method ReadTwice(repo: UserInfoRepo, id: int64)
    returns (first: Option<UserInfo>, second: Option<UserInfo>, ghost between: nat)
    requires ValidStore(repo.store) && Coherent(repo.store, repo.cache.entries)
    requires id in repo.store && id > 0
    modifies repo, repo.cache
    ensures first == second == Some(old(repo.store)[id])
    ensures old(repo.queries) <= between <= old(repo.queries) + 1
    ensures repo.queries == between
    ensures Coherent(repo.store, repo.cache.entries)
  {
    var err;
    first, err := repo.GetUserInfo(id, NoReadFaults);
    between := repo.queries;
    assert GetUserInfoCacheKey(id) in repo.cache.entries;
    second, err := repo.GetUserInfo(id, NoReadFaults);
  }

  /** Reading an id with no row twice: both reads return the zero struct and
      both query the table, since nothing is cached for an absent row. */
  method ReadAbsentTwice(repo: UserInfoRepo, id: int64) returns (first: Option<UserInfo>, second: Option<UserInfo>)
    requires ValidStore(repo.store) && Coherent(repo.store, repo.cache.entries)
    requires id !in repo.store
    modifies repo, repo.cache
    ensures first == second == Some(ZeroUser)
    ensures repo.queries == old(repo.queries) + 2
    ensures repo.cache.entries == old(repo.cache.entries)
  {
    if GetUserInfoCacheKey(id) in repo.cache.entries {
      CoherentHit(repo.store, repo.cache.entries, id);
    }
    var err;
    first, err := repo.GetUserInfo(id, NoReadFaults);
    second, err := repo.GetUserInfo(id, NoReadFaults);
  }

  /** Updating a stored record and then reading it returns the patched row. */
  method UpdateThenRead(repo: UserInfoRepo, id: int64, patch: UserInfo) returns (read: Option<UserInfo>)
    requires ValidStore(repo.store) && Coherent(repo.store, repo.cache.entries)
    requires id in repo.store
    modifies repo, repo.cache
    ensures read == Some(Patch(old(repo.store)[id], patch))
  {
    var err := repo.UpdateUserInfo(id, patch, NoReadFaults, None, None);
    var readErr;
    read, readErr := repo.GetUserInfo(id, NoReadFaults);
  }

  /** Creating a record and then reading it by the returned id gives the
      record as it was written, with that id. */
  method CreateThenRead(repo: UserInfoRepo, data: UserInfo, autoId: int64) returns (id: int64, read: Option<UserInfo>)
    requires ValidStore(repo.store) && Coherent(repo.store, repo.cache.entries)
    requires RowKey(data, autoId) != 0 && RowKey(data, autoId) !in repo.store
    modifies repo, repo.cache
    ensures id == RowKey(data, autoId)
    ensures read == Some(data.(id := id))
  {
    var err;
    id, err := repo.CreateUserInfo(data, None, autoId);
    var readErr;
    read, readErr := repo.GetUserInfo(id, NoReadFaults);
  }
}
