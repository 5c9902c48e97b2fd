/** The values the access layer passes around: the user record, the errors
    handed back by the cache and the store, and Go's fixed-width integers. */
module Model {

  /** Go's int64, the type of a record's primary key. */
  type int64 = x: int | -0x8000_0000_0000_0000 <= x < 0x8000_0000_0000_0000

  /** Go's int32, the type of the status column. */
  type int32 = x: int | -0x8000_0000 <= x < 0x8000_0000

  /** Go's time.Duration: a count of nanoseconds. */
  type Duration = int64

  const Minute: Duration := 60_000_000_000

  /** The time-to-live the repository gives every cache entry it writes (5*time.Minute). */
  const UserInfoTtl: Duration := 5 * Minute

  /** A Go pointer that may be nil. */
  datatype Option<T> = None | Some(value: T)

  /** One row of the user table (model.UserInfoModel). */
  datatype UserInfo = UserInfo(
    id: int64,
    username: string,
    email: string,
    phone: string,
    password: string,
    status: int32,
    createdAt: int64,
    updatedAt: int64)

  /** The zero value of the struct: what `new(model.UserInfoModel)` holds when a
      query scans no row into it. */
  const ZeroUser := UserInfo(0, "", "", "", "", 0, 0, 0)

  /** An error value. Failures of the cache tier or of the store arrive as
      `Fault`s chosen by the environment; `Wrapped` is errors.Wrap(f). */
  datatype Error = Fault(detail: string) | Wrapped(context: string, cause: Error)

  /** gorm's Updates with a struct: every non-zero field of the patch replaces
      the row's field; the row keeps its primary key. */
  function Patch(row: UserInfo, data: UserInfo): UserInfo
  {
    UserInfo(
      row.id,
      if data.username != "" then data.username else row.username,
      if data.email != "" then data.email else row.email,
      if data.phone != "" then data.phone else row.phone,
      if data.password != "" then data.password else row.password,
      if data.status != 0 then data.status else row.status,
      if data.createdAt != 0 then data.createdAt else row.createdAt,
      if data.updatedAt != 0 then data.updatedAt else row.updatedAt)
  }

  /** Applying the same patch twice changes nothing more, and the empty
      (zero-valued) patch changes nothing at all. */
  lemma PatchIdempotent(row: UserInfo, data: UserInfo)
    ensures Patch(Patch(row, data), data) == Patch(row, data)
    ensures data.(id := 0) == ZeroUser ==> Patch(row, data) == row
  {
  }

  /** A patch whose every field other than the ID is set replaces the whole
      row except its key. */
  lemma PatchOverridesSetFields(row: UserInfo, data: UserInfo)
    requires data.username != "" && data.email != "" && data.phone != "" && data.password != ""
    requires data.status != 0 && data.createdAt != 0 && data.updatedAt != 0
    ensures Patch(row, data) == data.(id := row.id)
  {
  }
}
