# User record access layer, modelled in Dafny

This project models the user-record access layer of `user-service`. The layer
sits in front of a relational user table and a Redis-style key-value cache
and follows the cache-aside pattern:

- the cache adapter (`internal/cache/user_info_cache.go`) derives the key
  `"user:info:<id>"` and offers get, set, multi-get, multi-set and delete;
- the repository (`internal/repository/user_info_repo.go`) serves single and
  batch reads through the cache, writes through the table, and looks users
  up by attribute.

Both tiers are state. The table is `UserInfoRepo.store: map<int64, UserInfo>`.
The cache is `UserInfoCache.entries: map<string, CacheEntry>`, and each entry
keeps its time-to-live as plain data. A ghost counter `UserInfoRepo.queries`
counts the queries sent to the table. The Go methods that change state
become Dafny methods over these fields. Their loops (the key list, the value
map, the batch split) are `for` loops with invariants, proved against
specification functions.

Nothing outside the model is simulated. Every answer of the cache tier or the
table that the model does not compute arrives as a parameter:
- an error, given as `Option<Error>`;
- the map a multi-get returns (`found`), which is opaque;
- the rows the batch `IN` query sends (`fetched`), a permutation of the stored rows of the requested ids;
- the key the table assigns on insert (`autoId`).

Files:
- `model.dfy`: module `Model`. It holds `int64`, the record `UserInfo`, its
  zero value, `Error`, the 5-minute TTL, and gorm's partial update `Patch`.
- `decimal.dfy`: module `Decimal`. It holds Go's base-10 formatting of an
  integer (`%d`, `strconv.FormatInt`, `cast.ToString`), with a parser and the
  round trip.
- `user_info_cache.dfy`: module `Cache`. It holds the key function, the
  key-list and value-map loops, and the class `UserInfoCache`.
- `user_info_repo.dfy`: module `Repository`. It holds the table's queries as
  functions, the coherence invariant between cache and table, the batch
  split, and the class `UserInfoRepo`.
- `scenarios.dfy`: module `Scenarios`. It holds callers that chain
  repository calls.

The invariant that connects the two tiers is `Repository.Coherent`: every
cache entry holds the stored row of the id its key was built from. Every
repository operation keeps it, with one exception: an update whose
best-effort cache delete fails. Under this invariant a successful
`GetUserInfo` returns exactly what the table holds, whether it was served
from the cache or not.

The code differs from a textbook cache-aside design, and the model follows
the code in each case:
- cache errors are returned to the caller, they do not fall back to the table;
- nothing is cached for an absent row (no negative caching);
- the declared `singleflight.Group` is never used;
- the batch read sends every requested id to the table, not only the missed ones;
- the batch loop looks hits up by the bare decimal id, while the adapter sends
  `"user:info:<id>"` keys to the tier.

## Model

| member | source | states |
|---|---|---|
| `Model.Patch` | user-service/internal/repository/user_info_repo.go:105 | gorm `Updates` with a struct, field by field: a non-zero field of the patch replaces the row's, a zero field keeps the row's, and the primary key is kept. No contract of its own; its meaning is stated by `Model.PatchIdempotent`, `Model.PatchOverridesSetFields`, `Repository.CoherentAfterUpdate` and `Repository.UserInfoRepo.UpdateUserInfo` |
| `Model.PatchIdempotent` | user-service/internal/repository/user_info_repo.go:105 | applying the same patch twice equals applying it once; a patch with only zero fields leaves the row unchanged |
| `Model.PatchOverridesSetFields` | user-service/internal/repository/user_info_repo.go:105 | a patch that sets every field other than the ID turns the row into the patch, keeping only the row's key |
| `Decimal.Digits` | user-service/internal/cache/user_info_cache.go:50 | the digits of a magnitude, most significant first. No contract of its own; `Decimal.DigitsRoundTrip` states its meaning |
| `Decimal.FormatInt` | user-service/internal/cache/user_info_cache.go:50 | `%d` / `strconv.FormatInt(v, 10)`. No contract of its own; `Decimal.FormatIntShape`, `Decimal.FormatIntRoundTrip` and `Decimal.FormatIntInjective` state its meaning |
| `Decimal.DigitsRoundTrip` | user-service/internal/cache/user_info_cache.go:20 | the decimal digits of a natural number are non-empty digits with no leading zero, and they parse back to the number |
| `Decimal.FormatIntShape` | user-service/internal/cache/user_info_cache.go:50 | `%d` of an int64 is an optional '-' and digits; it starts with '-' exactly for a negative value, and with a digit otherwise |
| `Decimal.FormatIntRoundTrip` | user-service/internal/cache/user_info_cache.go:50 | the text `%d` writes for an int64 parses back to the value |
| `Decimal.FormatIntInjective` | user-service/internal/repository/user_info_repo.go:150 | two ids have the same `cast.ToString` text if and only if they are equal |
| `Cache.GetUserInfoCacheKey` | user-service/internal/cache/user_info_cache.go:49-51 | `"user:info:%d"` of the id. No contract of its own; `Cache.CacheKeyReadsBack` and `Cache.CacheKeyInjective` state its meaning |
| `Cache.CacheKeyReadsBack` | user-service/internal/cache/user_info_cache.go:49-51 | the key of an id is `"user:info:"` followed by a signed decimal that reads back as the id |
| `Cache.CacheKeyInjective` | user-service/internal/cache/user_info_cache.go:20 | two ids have the same key if and only if they are equal |
| `Cache.IdTextIsNotCacheKey` | user-service/internal/repository/user_info_repo.go:150 | the bare decimal text the batch loop looks up is never a key the adapter builds |
| `Cache.ValueMap` | user-service/internal/cache/user_info_cache.go:96-100 | the key-to-record map a multi-set hands to the tier. No contract of its own; `Cache.ValueMapKeys`, `Cache.ValueMapSound` and `Cache.ValueMapLastWins` state its meaning, and `Cache.ValueMapFor` is the loop proved equal to it |
| `Cache.ValueMapKeys` | user-service/internal/cache/user_info_cache.go:96-100 | the multi-set map has a key exactly for the keys of the records' ids |
| `Cache.ValueMapSound` | user-service/internal/cache/user_info_cache.go:97-99 | every value of the multi-set map is one of the records, stored under the key of its own id |
| `Cache.ValueMapLastWins` | user-service/internal/cache/user_info_cache.go:97-99 | for duplicate ids the later record wins: a record with no later record of the same id is the one stored under its key |
| `Cache.WithTtl` | user-service/internal/cache/user_info_cache.go:102 | the entries a multi-set writes: each value of the map with the given duration. No contract of its own; `Cache.UserInfoCache.MultiSetUserInfoCache` and `Repository.CoherentAfterMultiSet` state what a multi-set does with it |
| `Cache.CacheKeysFor` | user-service/internal/cache/user_info_cache.go:79-83 | the key list has the length and order of `ids`, and element i is the key of `ids[i]` |
| `Cache.ValueMapFor` | user-service/internal/cache/user_info_cache.go:96-100 | the loop builds exactly the value map, the records applied in order |
| `Cache.UserInfoCache.constructor` | user-service/internal/cache/user_info_cache.go:38-46 | a new adapter wraps the shared tier as it is: every key already written, by this process before or by another one, stays visible |
| `Cache.UserInfoCache.SetUserInfoCache` | user-service/internal/cache/user_info_cache.go:54-64 | nil data or id 0 returns nil and leaves the cache unchanged; otherwise the record is stored with the given duration under the key of `id` and no other key changes, or the tier's error is returned |
| `Cache.UserInfoCache.GetUserInfoCache` | user-service/internal/cache/user_info_cache.go:67-75 | on a tier error it returns nil data and that error; otherwise it returns the record stored under the key of `id`, or nil when there is none |
| `Cache.UserInfoCache.MultiGetUserInfoCache` | user-service/internal/cache/user_info_cache.go:78-92 | the keys sent are the ids' keys in order; on a tier error the map is nil and the error is returned; otherwise the tier's map is returned |
| `Cache.UserInfoCache.MultiSetUserInfoCache` | user-service/internal/cache/user_info_cache.go:95-107 | returns the tier's error; on success every record is stored under the key of its own id with the given duration, the later record winning, and other keys are unchanged |
| `Cache.UserInfoCache.DelUserInfoCache` | user-service/internal/cache/user_info_cache.go:110-117 | returns the tier's error; on success it removes exactly the key of `id`; no other key changes in either case |
| `Repository.RowById` | user-service/internal/repository/user_info_repo.go:125-126 | the row scanned for `id` has a positive ID exactly when a row with a positive key `id` exists; otherwise it is the row itself or the zero struct |
| `Repository.SelectIn` | user-service/internal/repository/user_info_repo.go:160-161 | the stored rows of the requested ids, each once, in first-occurrence order. No contract of its own; `Repository.SelectInSound`, `Repository.SelectInComplete`, `Repository.SelectInDistinct`, `Repository.SelectInEmpty` and `Repository.FetchedRows` state its meaning |
| `Repository.SelectInSound` | user-service/internal/repository/user_info_repo.go:160-161 | every row the `IN` query returns is the stored row of one of the requested ids |
| `Repository.SelectInComplete` | user-service/internal/repository/user_info_repo.go:160-161 | every requested id that has a row contributes that row |
| `Repository.SelectInDistinct` | user-service/internal/repository/user_info_repo.go:160-161 | the `IN` query returns no row twice, however often an id repeats |
| `Repository.SelectInEmpty` | user-service/internal/repository/user_info_repo.go:166 | the query returns no rows if and only if none of the ids has a row |
| `Repository.CoherentHit` | user-service/internal/repository/user_info_repo.go:121-122 | under coherence a cache hit for `id` is the stored row of `id` |
| `Repository.CoherentAfterPopulate` | user-service/internal/repository/user_info_repo.go:131-132 | writing a stored row under its own key keeps the cache coherent |
| `Repository.CoherentAfterMultiSet` | user-service/internal/repository/user_info_repo.go:166-168 | multi-setting rows taken from the table keeps the cache coherent |
| `Repository.CoherentAfterUpdate` | user-service/internal/repository/user_info_repo.go:105-110 | patching row k and deleting the key of k keeps the cache coherent |
| `Repository.ReadIsTransparent` | user-service/internal/repository/user_info_repo.go:115-138 | under coherence the record a read returns is the table's row for `id` (hit or miss), and the cache after the read is coherent |
| `Repository.IdText` | user-service/internal/repository/user_info_repo.go:150 | `cast.ToString(v)`, the text the batch loop looks ids up with. No contract of its own; `Decimal.FormatIntInjective`, `Cache.IdTextIsNotCacheKey` and `Repository.AdapterKeysNeverHit` state its meaning |
| `Repository.HitIds` | user-service/internal/repository/user_info_repo.go:148-156 | the requested ids found in the multi-get map. No contract of its own; `Repository.PartitionIsExact`, `Repository.CachedItemsAlign` and `Repository.PartitionMembership` state its meaning |
| `Repository.MissedIds` | user-service/internal/repository/user_info_repo.go:148-156 | the requested ids not found in the multi-get map (`missedID`). No contract of its own; `Repository.PartitionIsExact` and `Repository.PartitionMembership` state its meaning, and `Repository.SplitByCache` is the loop proved equal to it |
| `Repository.CachedItems` | user-service/internal/repository/user_info_repo.go:148-156 | the records the loop appends for the hits. No contract of its own; `Repository.CachedItemsAlign` and `Repository.PartitionMembership` state its meaning, and `Repository.SplitByCache` is the loop proved equal to it |
| `Repository.PartitionIsExact` | user-service/internal/repository/user_info_repo.go:149-156 | every requested id, with its repeats, lands in exactly one of the two lists: hit ids plus missed ids equal `ids` as multisets, and their lengths add up |
| `Repository.CachedItemsAlign` | user-service/internal/repository/user_info_repo.go:150-155 | the appended records line up with the hit ids in input order: record i is the map's value under the text of hit id i |
| `Repository.PartitionMembership` | user-service/internal/repository/user_info_repo.go:150-152 | an id is missed if and only if its text is not a key of the multi-get map, and a hit if and only if it is; a hit's record is in the result |
| `Repository.AdapterKeysNeverHit` | user-service/internal/repository/user_info_repo.go:150 | if every key of the multi-get map has the adapter's `"user:info:"` form, then no id hits and every id is missed |
| `Repository.FetchedRows` | user-service/internal/repository/user_info_repo.go:160-161 | whatever order the table sends the `IN` rows in, they have the same length as `SelectIn`, each is the stored row of a requested id, and every requested id that has a row contributes it |
| `Repository.BatchRepeatsCachedRows` | user-service/internal/repository/user_info_repo.go:158-167 | when some id missed, the query asks for every id, so a hit whose id has a row (with the same value) appears at least twice among the hits' records followed by the fetched rows, which is the batch result in that case |
| `Repository.SplitByCache` | user-service/internal/repository/user_info_repo.go:148-156 | the loop yields the hits' records and the missed ids, each in input order, as the partition functions define them |
| `Repository.UserInfoRepo.constructor` | user-service/internal/repository/user_info_repo.go:81-87 | a repository over a given table and cache adapter, with no queries sent yet |
| `Repository.UserInfoRepo.SelectWhere` | user-service/internal/repository/user_info_repo.go:55 | a query filtering on one column returns some row matching it, or the zero struct when none does |
| `Repository.UserInfoRepo.GetUserByUsername` | user-service/internal/repository/user_info_repo.go:53-60 | one query; a table error gives nil and that error; otherwise a row with that username, or the zero struct |
| `Repository.UserInfoRepo.GetUserByEmail` | user-service/internal/repository/user_info_repo.go:62-69 | as written: runs the username query with the email, so it returns a row whose username equals the email, or the zero struct |
| `Repository.UserInfoRepo.GetUserByPhone` | user-service/internal/repository/user_info_repo.go:71-78 | as written: runs the username query with the phone number |
| `Repository.UserInfoRepo.GetUserByEmailIntended` | user-service/internal/repository/user_info_repo.go:26 | the corrected lookup: it returns a row with that email, or the zero struct when no row has it |
| `Repository.UserInfoRepo.GetUserByPhoneIntended` | user-service/internal/repository/user_info_repo.go:27 | the corrected lookup: it returns a row with that phone number, or the zero struct |
| `Repository.EmailLookupAsWrittenMisses` | user-service/internal/repository/user_info_repo.go:64 | for a table with one user whose email is `amy@example.com`, the lookup as written returns the zero struct for that email |
| `Repository.PhoneLookupAsWrittenMisses` | user-service/internal/repository/user_info_repo.go:73 | the same for the phone number `555-0100` |
| `Repository.AttributeLookupIntendedFinds` | user-service/internal/repository/user_info_repo.go:26-27 | with the intended column, a value that some row holds is always found, and the result is a stored row |
| `Repository.UserInfoRepo.CreateUserInfo` | user-service/internal/repository/user_info_repo.go:90-97 | never touches the cache; a table error returns id 0 and the wrapped error, and the table is unchanged; otherwise the row is stored under its key, that key is returned, and coherence is kept |
| `Repository.UserInfoRepo.GetUserInfo` | user-service/internal/repository/user_info_repo.go:115-138 | a cache error is returned with no table query and no cache change; a hit is returned with no query and no cache change; a miss queries the table once; a table error is returned and the cache is unchanged; a row with ID > 0 is written under the key of `id` with the 5-minute TTL, and a set error is returned; otherwise the scanned row (the zero struct, or a row whose ID is not positive) is returned and the cache is unchanged; coherence is kept, and under it the result is the table's row |
| `Repository.UserInfoRepo.BatchGetUserInfo` | user-service/internal/repository/user_info_repo.go:141-176 | a multi-get error gives nil and that error; the table is queried at most once, exactly when some id missed, with all the ids; a table or multi-set error gives nil and that error; the cache is multi-set only when the query returned rows; success returns the hits' records followed by the rows the table sent, in the table's order, and those same rows are multi-set; the table never changes and coherence is kept |
| `Repository.UserInfoRepo.UpdateUserInfo` | user-service/internal/repository/user_info_repo.go:100-112 | if the preceding read fails its error is returned wrapped, and the table and cache are unchanged; otherwise one update query; an update error is returned with no delete; on success the read record's row is patched, the key of `id` is deleted unless the delete fails, that failure is ignored, and nil is returned; under coherence the row of `id` is patched and coherence is kept unless the delete failed |
| `Scenarios.ReadTwice` | user-service/internal/repository/user_info_repo.go:117-137 | two reads of a stored record with positive id return the stored row; the first sends at most one query and the second, served from the cache, sends none |
| `Scenarios.ReadAbsentTwice` | user-service/internal/repository/user_info_repo.go:125-137 | two reads of an id with no row each return the zero struct, and each queries the table |
| `Scenarios.UpdateThenRead` | user-service/internal/repository/user_info_repo.go:100-112 | a read right after a fault-free update of a stored record returns the patched row |
| `Scenarios.CreateThenRead` | user-service/internal/repository/user_info_repo.go:90-97 | a read right after a fault-free create returns the record as written, carrying its new id |

## Left out

- The `singleflight.Group` (user_info_repo.go:32) is declared but never used. Its purpose, deduplicating concurrent fetches, is about concurrency, which the model does not cover.
- `SetCacheWithNotFound` (user_info_cache.go:120-127) is outside the interface and nothing calls it, so the model has no negative caching.
- TTL expiry and wall-clock time: a cache entry keeps its duration as data and never expires. gorm's automatic `created_at`/`updated_at` stamping reads the clock, so it is not modelled; the timestamps are ordinary fields.
- JSON encoding, the Redis client and the go-eagle cache internals (user_info_cache.go:38-46) are foreign library code. The tier's answers come in as parameters.
- Cache.UserInfoCache.SetUserInfoCache, MultiSetUserInfoCache and DelUserInfoCache: the model assumes a failed tier write leaves the tier unchanged. A real Redis pipeline could apply part of a multi-set before failing.
- Cache.UserInfoCache.MultiGetUserInfoCache: the tier's answer `found` is opaque. The model does not compute it from `entries` or from the keys sent, because go-eagle's keying of that map is library code.
- The SQL text built with `fmt.Sprintf` and `strings.Join`, `WithContext` cancellation, and OpenTelemetry tracing.
- Cache.UserInfoCache.GetUserInfoCache: the warning it logs on a tier error (user_info_cache.go:71) is output only, so it is not modelled; the error itself is returned as in the code.
- Repository.UserInfoRepo.CreateUserInfo and UpdateUserInfo: the Go methods take a `*model.UserInfoModel` that may be nil (user_info_repo.go:90, :100). The model takes a `UserInfo` value, so a nil record cannot be passed; what gorm does with one (an error from `Create`, or an error or no-op from `Updates`) is library behaviour the model does not capture.
- Repository.SelectIn: SQL leaves the row order of `WHERE id IN` unspecified. `SelectIn` fixes one order, the first occurrence of each id, only to define which rows are sent; `BatchGetUserInfo` takes the rows the table sends as a parameter in any order that is a permutation of them, and its result and cache writes are stated over that parameter.
- Repository.UserInfoRepo.SelectWhere: when several rows match, which row the scan keeps is not determined; the model picks any matching row.
- Repository.UserInfoRepo.UpdateUserInfo: gorm's own refusal to update without a primary key (a zero `ID`) is part of the update error parameter, not computed. A patch that carries a non-zero `ID` is treated as leaving the row's key unchanged.
- Repository.UserInfoRepo.CreateUserInfo: key assignment and the table's constraints belong to the table. The model takes the table's answer as the error parameter and `autoId`, and requires that the table reports success only for a free non-zero key. Uniqueness of username and email is not modelled.
- Error texts: `errors.Wrap`/`Wrapf` become `Wrapped(context, cause)`, without the formatted message.
- A nil slice and an empty slice are both `Some([])`. A nil element in the multi-set slice (a crash at `v.ID`) cannot occur with a sequence of values.
- The gRPC handlers, password hashing and `time.Now` in internal/service/user_svc.go; process bootstrap and configuration in cmd/cronjob/main.go; dependency wiring in the wire.go files and internal/repository/repository.go. model.UserInfoModel is not part of this model; its fields are taken from how the code uses them.

## Findings

| source | as written | input that shows it | evidently intended | confidence | as-written member | corrected member |
|---|---|---|---|---|---|---|
| user-service/internal/repository/user_info_repo.go:64 | `GetUserByEmail` runs `_getUserInfoByUsernameSQL` with the email | a table with one user, username `amy`, email `amy@example.com`; `GetUserByEmail("amy@example.com")` returns the zero struct | run `_getUserInfoByEmailSQL` (line 26), which is declared and never used | high; not executed | `Repository.UserInfoRepo.GetUserByEmail`, `Repository.EmailLookupAsWrittenMisses` | `Repository.UserInfoRepo.GetUserByEmailIntended`, `Repository.AttributeLookupIntendedFinds` |
| user-service/internal/repository/user_info_repo.go:73 | `GetUserByPhone` runs `_getUserInfoByUsernameSQL` with the phone number | the same table, phone `555-0100`; `GetUserByPhone("555-0100")` returns the zero struct | run `_getUserInfoByPhoneSQL` (line 27), which is declared and never used | high; not executed | `Repository.UserInfoRepo.GetUserByPhone`, `Repository.PhoneLookupAsWrittenMisses` | `Repository.UserInfoRepo.GetUserByPhoneIntended`, `Repository.AttributeLookupIntendedFinds` |

Nothing else in the model calls these lookups; their only caller is the service layer, which is not part of this model. So the as-written methods stay as the model of the code, and the corrected ones sit beside them.
