# sdpremote — a Dafny model of the scope/object consistency engine

sdpremote is a small remote store for *scopes*. A scope is a named set of
objects inside a repository `<login>/<repo>`, and each object may reference an
uploaded blob. A scope row keeps an aggregate checksum over its objects' status
lines (`"<key> <checksum>"`, with `null` for a missing checksum). Clients use it
as an optimistic-concurrency token: replace, patch and delete go through only
when the client presents the current checksum.

Uploaded blobs start as *pending* `storage` rows owned by the uploader. An
object or meta row that references a blob *claims* it, which clears its expiry.
A periodic sweep deletes pending blobs whose time is up.

The model keeps the five tables (`repos`, `scopes`, `objects`, `storage`,
`metas`) as Dafny maps in one value `Schema.Tables`. The mutable database is the
class `Db.Database`. Every route is a method that either fails with the tables
as they were, or commits all of its changes. That all-or-nothing rule is the
transaction of `engine.begin()`; on the error paths it is `Database.Rollback`.

Each route keeps one invariant, `Schema.WellFormed`, which has two parts:

- **Referential.** Foreign keys hold with their cascades. Every referenced blob
  exists, is claimed, and carries the checksum the referencing row stores.
  Every storage id was issued by the sequence.
- **Summarised.** Each scope row's checksum is the aggregate checksum of its
  objects' status lines, and it is null exactly when the scope has no objects.

Every write route is proved against a specification function of the old tables
(`RepoDeleted`, `Created`, `Replaced`, `Patched`, `Uploaded`, `Swept`, …). The
lemmas beside each function state what the route promises.

Modules, one per source file unless noted:

- `Outcomes`: `Option`, `Result` and the error kinds; the first failure of a
  sequence of checks.
- `Dicts`: Python dicts given as insertion-ordered key/value sequences.
- `Text`: string helpers used by the core: lexicographic order, `str.split`
  with and without a separator, `strip`, decimal text of ints, and UTF-8
  encoding.
- `Checksum`: `sdpremote/utils/checksum.py`. SHA-256 is a function-typed
  parameter.
- `Schema`: the rows, the status line, the blob claim and the invariant. Its
  keys, defaults and cascades come from the migrations `62ca5dfee7b1`,
  `d32ee62c4759`, `6d36be018ad1` and `3d748babd72d`. The migrations that
  create `repos`, `objects` and `metas`, and the one that adds the `owner`
  column of `storage`, are not part of this model; the `owner` column is
  the one `upload` writes.
- `Db`: the database object and its rollback.
- `ObjectUtil`, `MetaUtil`, `ScopeUtil`: `sdpremote/utils/object.py`,
  `meta.py` and `scope.py`.
- `ScopeRoutes`, `ScopePatch`: `sdpremote/routes/scope.py`. `ScopePatch` holds
  `patch_scope` and its loop.
- `RepoRoutes`, `UploadRoute`, `ObjectRoutes`: `sdpremote/routes/repo.py`,
  `upload.py` and `object.py`.
- `Storage`: `sdpremote/storage.py`. It holds the bucket, the streaming
  `ObjectReader`, `uploadObject` and the expiry sweep.
- `User`: `sdpremote/user.py`. Base64 decoding is a partial-function parameter.

Where the code does something surprising, the model follows the code:

- The hashed content has no trailing newline.
- `set_scope` returns nothing, so create and replace report a `null` checksum.
- A patch that empties its scope still reports the request's creator and
  timestamp.
- Creating a scope in a missing repository is a 409, like a duplicate.
- The guard `checksum == None` compiles to `IS NULL`, so a null checksum
  matches a null one.

## Model

| member | source | states |
|---|---|---|
| Checksum.CalcChecksum | sdpremote/utils/checksum.py:10-12 | the hash of the UTF-8 bytes of the values read in ascending key order and joined by `"\n"`; an empty dict hashes no bytes, a one-entry dict just its value |
| Checksum.ChecksumIgnoresInsertionOrder | sdpremote/utils/checksum.py:10-12 | two dicts with the same entries in any insertion order have the same aggregate checksum |
| Checksum.ContentFollowsKeyOrder | sdpremote/utils/checksum.py:11 | the hashed content is the values joined by `"\n"` in the order of any strictly ascending listing of the keys |
| Checksum.ContentLines | sdpremote/utils/checksum.py:11 | when no value contains a newline, splitting the content on `"\n"` gives back the values in key order, and there are exactly `|m| - 1` newlines: no trailing newline |
| Checksum.SingleEntry | sdpremote/utils/checksum.py:11-12 | a one-entry map hashes exactly that value's UTF-8 bytes, and the key does not enter the hash |
| Checksum.SortedKeysListing | sdpremote/utils/checksum.py:11 | `sorted` lists every key exactly once, in strictly ascending order |
| Checksum.AscendingListingUnique | sdpremote/utils/checksum.py:11 | two strictly ascending listings of the same keys are equal, so the content depends only on the map |
| Checksum.LeastIsLeast | sdpremote/utils/checksum.py:11 | the key `sorted` puts first is below or equal to every other key |
| Text.SplitJoin | sdpremote/utils/checksum.py:11 | splitting a join of separator-free parts on the separator gives back the parts |
| Text.JoinSplit | sdpremote/user.py:35 | joining the fields of `str.split(sep)` with `sep` gives back the string |
| Text.Split | sdpremote/user.py:35 | `str.split(sep)` has one more field than the string has separators, and no field contains one |
| Text.Words | sdpremote/user.py:13 | `str.split()` yields non-empty words without whitespace, and nothing for a blank string |
| Text.WordsOfJoin | sdpremote/user.py:13 | whitespace-splitting words joined by single spaces gives back the words |
| Text.StripProperties | sdpremote/routes/scope.py:29 | `strip()` is empty exactly for a blank string, and otherwise starts and ends with a non-space |
| Text.StripIsInfix | sdpremote/routes/scope.py:29 | `strip()` is a slice of the input with only whitespace cut from both ends |
| Text.ParseIntToString | sdpremote/routes/object.py:86 | the decimal text `str(i)` of any int parses back to `i` |
| Text.IntToStringInjective | sdpremote/storage.py:60 | two ints with the same `str` are equal |
| Text.EncodeAscii | sdpremote/utils/checksum.py:12 | `str.encode()` of ASCII text is one byte per character with the same code |
| Dicts.InsertionOrderIrrelevant | sdpremote/utils/checksum.py:11 | two dicts built from the same entries in different orders are equal |
| Dicts.DictOfEntries | sdpremote/utils/scope.py:18-27 | a dict built from distinct keys maps a key to a value exactly when that pair was given |
| Schema.StatusLine | sdpremote/utils/object.py:78 | a falsy checksum is written `null`; a line whose key and checksum have no space splits on its space into the key and the checksum text |
| Schema.StatusLineDeterminesChecksum | sdpremote/utils/object.py:78 | the status line of a key determines the checksum text it reports |
| Schema.ScopeLinesUpdate | sdpremote/routes/scope.py:248-249 | writing one object row changes only that key's status line |
| Schema.ClaimError | sdpremote/utils/object.py:38-51 | a claim succeeds exactly when the storage row exists and the acting user owns it; otherwise NotFound or Forbidden |
| Schema.Claim | sdpremote/utils/object.py:39-43 | the claim keeps every storage id, clears the expiry of the claimed row only, and keeps owner and checksum |
| Schema.ClaimIdempotent | sdpremote/utils/object.py:39-43 | claiming a blob twice is claiming it once |
| Schema.ClaimKeepsErrors | sdpremote/utils/object.py:44-51 | a claim does not change whether any later claim succeeds, since there is no pending check |
| Schema.EmptyWellFormed | sdpremote/alembic/versions/62ca5dfee7b1_add_scopes_table.py:20-39 | freshly created, empty tables satisfy the invariant |
| Schema.DeleteObjectsKeepsReferential | sdpremote/alembic/versions/d32ee62c4759_rename_name_column_to_scope_in_objects_.py:28-36 | deleting object rows, with their metas by cascade, keeps every foreign key and blob reference |
| Db.Database.constructor | sdpremote/alembic/versions/62ca5dfee7b1_add_scopes_table.py:20-39 | a new database has empty tables, the storage sequence at 1, and satisfies the invariant |
| Db.Database.Rollback | sdpremote/routes/scope.py:153 | leaving the transaction restores every table, but the storage sequence keeps the ids it handed out |
| ObjectUtil.DataError | sdpremote/utils/object.py:36-51 | null data never fails; NotFound exactly for a missing storage row, Forbidden exactly for another user's blob, success otherwise |
| ObjectUtil.NullDataClaimsNothing | sdpremote/utils/object.py:36-38 | null data claims nothing and gives a null checksum and a null `data` column |
| ObjectUtil.ReclaimIdempotent | sdpremote/utils/object.py:38-51 | re-claiming by the owner succeeds or fails as before, changes no storage row and yields the same checksum |
| ObjectUtil.ClaimDataKeeps | sdpremote/utils/object.py:38-51 | claiming one blob changes neither the outcome nor the checksum of a claim of any blob |
| ObjectUtil.NewRowOk | sdpremote/utils/object.py:53-74 | the upserted row references a claimed blob carrying the row's checksum |
| ObjectUtil.UpsertKeepsReferential | sdpremote/utils/object.py:53-74 | the claim followed by the upsert keeps every foreign key and blob reference |
| ObjectUtil.CreateObject | sdpremote/utils/object.py:27-78 | fails exactly on a claim error, with the tables unchanged; otherwise claims the blob, writes the row at (key, scope, repo) overwriting any old one, touches no other row, and returns `"<key> <checksum or null>"` |
| MetaUtil.FormatChecksum | sdpremote/utils/meta.py:23-31 | without an object key (or with an empty one) the line is `meta ` and the object status line; with no space in a field it splits into `meta`, `key` or `key(object_key)`, and the checksum text |
| MetaUtil.NewMetaRowOk | sdpremote/utils/meta.py:42-61 | a meta row references only a claimed blob with its checksum; only an int value touches storage; bytes get their SHA-256 as checksum |
| MetaUtil.MetaError | sdpremote/utils/meta.py:43-97 | errors are NotFound or Forbidden; Forbidden exactly for another user's blob; a non-blob value fails exactly when the scope (or object) is missing |
| MetaUtil.MetaUpsertKeepsWellFormed | sdpremote/utils/meta.py:63-95 | the insert-or-update of a meta row keeps the invariant |
| MetaUtil.CreateMeta | sdpremote/utils/meta.py:34-101 | fails exactly on a claim or integrity error (404), with the tables unchanged; otherwise inserts or overwrites the meta row and returns its formatted line |
| ScopeUtil.FirstError | sdpremote/utils/scope.py:18-27 | success exactly when every item's claim passes; otherwise the error of the first failing item, NotFound or Forbidden |
| ScopeUtil.ClaimAllKeeps | sdpremote/utils/scope.py:18-27 | claiming the blobs of earlier items does not change the outcome or checksum of a later claim |
| ScopeUtil.LinesOfOverlay | sdpremote/utils/scope.py:18-27 | the status lines after the upserts are the old lines overwritten by the lines the upserts return |
| ScopeUtil.ItemLinesEntry | sdpremote/utils/scope.py:18-27 | the collected dict maps each input key to the status line of its claimed checksum |
| ScopeUtil.OverlayEntry | sdpremote/utils/object.py:53-74 | after the upserts each input key holds the row written for it |
| ScopeUtil.SetScopeSummarises | sdpremote/utils/scope.py:29-36 | in an emptied scope the checksum written is the aggregate checksum of the scope's objects |
| ScopeUtil.UpsertObjects | sdpremote/utils/scope.py:18-27 | the loop of upserts fails with the first item's claim error and no change; otherwise it upserts every item and returns exactly the input keys' status lines |
| ScopeUtil.SetScope | sdpremote/utils/scope.py:10-36 | fails with the first claim error and no change; otherwise upserts every item and writes only the checksum column, leaving an empty input's row untouched |
| ScopeRoutes.UseSuffix | sdpremote/routes/scope.py:28-32 | the creator is the bare user name exactly when the suffix is blank, else the user name, `@` and the trimmed suffix, which starts with a non-space |
| ScopeRoutes.Matches | sdpremote/routes/scope.py:63-68 | an absent or empty filter and the name itself always match; a match always starts with the filter; without the prefix flag only the name itself matches |
| ScopeRoutes.ListScopes | sdpremote/routes/scope.py:54-75 | every listed scope is in the repository and passes the name filter |
| ScopeRoutes.ListScopesComplete | sdpremote/routes/scope.py:59-68 | every scope of the repository that passes the filter is listed |
| ScopeRoutes.ListScopesUnfiltered | sdpremote/routes/scope.py:63 | an absent or empty filter lists the whole repository |
| ScopeRoutes.ListScopesExact | sdpremote/routes/scope.py:63-68 | an exact filter lists just that scope or nothing, and never more than the prefix filter |
| ScopeRoutes.CreateError | sdpremote/routes/scope.py:96-120 | Conflict exactly when the scope exists or its repository is missing; otherwise the first claim error (NotFound or Forbidden); success exactly when every claim passes |
| ScopeRoutes.CreatedBySetScope | sdpremote/routes/scope.py:96-120 | the insert followed by `set_scope` yields `Created` |
| ScopeRoutes.OpenedKeepsReferential | sdpremote/routes/scope.py:98-104 | inserting the scope row into an existing repository keeps the foreign keys |
| ScopeRoutes.CreatedSummarised | sdpremote/routes/scope.py:94-121 | a created scope is summarised; with no objects its checksum, creator and timestamp are all null |
| ScopeRoutes.CreatedObjects | sdpremote/routes/scope.py:108-120 | the created scope holds exactly the input keys with their new rows, and no other scope's objects change |
| ScopeRoutes.OpenScope | sdpremote/routes/scope.py:98-104 | the insert adds the scope row with no objects and keeps the foreign keys |
| ScopeRoutes.CreateScope | sdpremote/routes/scope.py:88-128 | Conflict when the scope exists or its repository is missing, or the first claim error, each with the tables unchanged; otherwise the tables become `Created` and the response carries a null checksum |
| ScopeRoutes.GuardError | sdpremote/routes/scope.py:154-166 | the guard passes exactly when the scope exists with a checksum equal to the given one (null matching null), and fails with NotFound |
| ScopeRoutes.GuardWithNullMatchesEmpty | sdpremote/routes/scope.py:154-166 | in a committed state, a null checksum passes the guard exactly for a scope with no objects |
| ScopeRoutes.ReplaceError | sdpremote/routes/scope.py:154-186 | a guard mismatch is NotFound; otherwise the first claim error; success exactly when the guard and every claim pass |
| ScopeRoutes.ReplacedBySetScope | sdpremote/routes/scope.py:154-186 | the guarded update, the delete and `set_scope` yield `Replaced` |
| ScopeRoutes.ClearedKeepsReferential | sdpremote/routes/scope.py:154-172 | resetting the row and deleting its objects (with their metas) keeps the foreign keys |
| ScopeRoutes.ReplacedSummarised | sdpremote/routes/scope.py:151-187 | a replaced scope is summarised; an empty replacement leaves all three columns null |
| ScopeRoutes.ReplacedObjects | sdpremote/routes/scope.py:168-186 | after replace the scope holds exactly the supplied keys with their new rows, and other scopes are untouched |
| ScopeRoutes.ClearScope | sdpremote/routes/scope.py:154-172 | the guarded update and the object delete, keeping the foreign keys |
| ScopeRoutes.ReplaceScope | sdpremote/routes/scope.py:141-194 | NotFound unless the stored checksum equals the given one (null matching null), or the first claim error, with the tables unchanged; otherwise the tables become `Replaced` and the response carries a null checksum |
| ScopeRoutes.ScopeDeletedWellFormed | sdpremote/routes/scope.py:316-324 | deleting a scope, with its objects and metas by cascade, keeps the invariant, removes only that scope, and leaves storage alone |
| ScopeRoutes.DeleteScope | sdpremote/routes/scope.py:308-326 | NotFound unless the checksum guard matches, with no change; otherwise exactly that scope and its cascade are gone |
| ScopePatch.ChangeKeys | sdpremote/routes/scope.py:252-266 | the upserted and deleted keys are among the patch's keys |
| ScopePatch.PatchLinesUntouched | sdpremote/routes/scope.py:248-266 | a key the patch does not name keeps its loaded line |
| ScopePatch.PatchLinesCorrect | sdpremote/routes/scope.py:241-273 | the `checksums` dict the loop builds is exactly the status lines of the objects the patch leaves in the scope |
| ScopePatch.PatchedSummarised | sdpremote/routes/scope.py:275-287 | the patched scope is summarised: the aggregate checksum of the old lines minus deletes plus upserts, or all three columns null when nothing is left |
| ScopePatch.PatchedKeys | sdpremote/routes/scope.py:251-273 | the patched scope holds the old keys plus the upserted ones, minus the deleted ones |
| ScopePatch.PatchedPuts | sdpremote/routes/scope.py:260-266 | every upserted key holds the row its upsert wrote |
| ScopePatch.PatchedUntouched | sdpremote/routes/scope.py:251-273 | an object the patch does not name keeps its row |
| ScopePatch.PatchError | sdpremote/routes/scope.py:220-266 | an empty patch is 204 before anything else; a guard mismatch is NotFound; every error is 204, NotFound or Forbidden |
| ScopePatch.PatchErrorCases | sdpremote/routes/scope.py:220-266 | 204 exactly for an empty patch; past the guard, the patch fails exactly when some delete names a missing key or some upsert's claim fails |
| ScopePatch.WriteRow | sdpremote/routes/scope.py:227-237 | the guarded update writes only that scope's row and keeps the foreign keys |
| ScopePatch.LoadLines | sdpremote/routes/scope.py:241-249 | the loaded dict is the status lines of the scope's objects |
| ScopePatch.PatchStep | sdpremote/routes/scope.py:253-266 | one more item drops its key's line for a delete, and writes its claimed status line for an upsert |
| ScopePatch.PatchKeyAt | sdpremote/routes/scope.py:255 | before its own item, a key is in the dict exactly when the scope held it |
| ScopePatch.ApplyChange | sdpremote/routes/scope.py:252-266 | one loop step: a delete of a missing key is NotFound, an upsert fails on its claim; otherwise the dict gains this item's effect |
| ScopePatch.ApplyChanges | sdpremote/routes/scope.py:251-266 | the loop fails with the first failing item's error and no change; otherwise it returns the patched lines and `to_delete` in request order, with every upsert done |
| ScopePatch.DropObjects | sdpremote/routes/scope.py:267-273 | the delete removes exactly the listed keys of the scope, with their metas, and keeps the foreign keys |
| ScopePatch.PatchedInSteps | sdpremote/routes/scope.py:227-287 | the guarded reset, the upserts, the delete and the final update compose to `Patched` |
| ScopePatch.Conclude | sdpremote/routes/scope.py:267-287 | the delete and the final update leave the row `PatchedRow` and report its checksum |
| ScopePatch.PatchScope | sdpremote/routes/scope.py:210-296 | NoChanges for an empty patch, NotFound on a guard mismatch or a missing delete key, or the first claim error, each with the tables unchanged; otherwise the tables become `Patched` and the response carries the new creator and timestamp |
| RepoRoutes.RepoName | sdpremote/routes/repo.py:11-12 | the name is the login, `/` and the repository; a login without `/` puts no `/` before the separator |
| RepoRoutes.RepoNameInjective | sdpremote/routes/repo.py:11-12 | for logins without `/`, the full name determines the login and the repository |
| RepoRoutes.RepoAddedWellFormed | sdpremote/routes/repo.py:26-31 | inserting a repository keeps the invariant |
| RepoRoutes.RepoDeletedWellFormed | sdpremote/alembic/versions/62ca5dfee7b1_add_scopes_table.py:27-33 | deleting a repository with its cascade keeps the invariant, leaves none of its scopes, and keeps other repositories' scopes, objects and all blobs |
| RepoRoutes.DeleteUndoesCreate | sdpremote/routes/repo.py:26-55 | deleting a repository just created gives back the tables from before |
| RepoRoutes.CreateRepo | sdpremote/routes/repo.py:26-34 | Conflict exactly when the name exists, with no change; otherwise the name is added |
| RepoRoutes.DeleteRepo | sdpremote/routes/repo.py:48-55 | NotFound exactly when the name is missing, with no change; otherwise the repository goes with its scopes, objects and metas |
| UploadRoute.PendingRow | sdpremote/routes/upload.py:24-38 | the new row is owned by the uploader and carries the file's hash; it expires six hours after the insert, the `expire_at` default of migration `6d36be018ad1` |
| UploadRoute.UploadedWellFormed | sdpremote/routes/upload.py:24-38 | the upload keeps the invariant and adds one row under a never-used id, leaving every other row as it was |
| UploadRoute.DrawKeepsWellFormed | sdpremote/routes/upload.py:24-33 | an id drawn from the sequence and then rolled back keeps the invariant |
| UploadRoute.Upload | sdpremote/routes/upload.py:23-40 | InsufficientStorage exactly for a falsy id, with nothing stored but the id consumed; otherwise stores the file under `str(sid)`, adds the pending row with the file's SHA-256, and returns the id |
| UploadRoute.UploadedClaimable | sdpremote/utils/object.py:38-51 | a fresh upload can be claimed by its uploader and is Forbidden to anyone else |
| Storage.Bucket.constructor | sdpremote/storage.py:17-21 | the bucket starts empty |
| Storage.ObjectReader.constructor | sdpremote/storage.py:83-88 | the size is the file's length, reading starts at offset 0, and the hasher has seen nothing |
| Storage.ObjectReader.ReadEnd | sdpremote/storage.py:91 | `read(n)` stops `n` bytes on, or at the end of the file for a negative or overlong `n` |
| Storage.ObjectReader.Read | sdpremote/storage.py:90-94 | returns the next chunk, advances past it, and the hasher has seen exactly the bytes handed out so far |
| Storage.ObjectReader.Hash | sdpremote/storage.py:96-98 | the digest of everything read so far, and of the whole file once it is read to the end |
| Storage.UploadObject | sdpremote/storage.py:70-79 | the bucket gains exactly the file under `str(sid)`, and the result is the file's SHA-256 |
| Storage.Expired | sdpremote/storage.py:49-53 | selects exactly the rows whose expiry is set and strictly before now; a claimed row is never selected |
| Storage.SweptAsWritten | sdpremote/storage.py:59 | as written, `ids - errors` removes nothing: every expired id is deleted |
| Storage.SweptAsWrittenCounterexample | sdpremote/storage.py:55-59 | blob `"7"` fails to be removed, yet row 7 is deleted as written, which the intended difference keeps |
| Storage.SweptIds | sdpremote/storage.py:59 | the swept ids are among the expired ones |
| Storage.SweptIdsExact | sdpremote/storage.py:55-63 | the deleted rows are exactly the expired ids minus the ones whose blob failed |
| Storage.SweptWellFormed | sdpremote/storage.py:42-64 | the sweep keeps the invariant, never deletes a claimed or unexpired row, and keeps rows whose blob failed (corrected sweep, see ## Findings) |
| Storage.SweepMatchesBucket | sdpremote/storage.py:54-63 | a blob leaves the bucket exactly when its row leaves the table: no blob is orphaned (corrected sweep, see ## Findings) |
| Storage.DeleteExpired | sdpremote/storage.py:42-64 | the sweep removes the expired blobs that did not fail and deletes exactly their rows, keeping the invariant (corrected sweep, see ## Findings) |
| ObjectRoutes.ListObjects | sdpremote/routes/object.py:25-50 | every listed object belongs to the requested scope and repository, passes the key filter, and is shown with its row |
| ObjectRoutes.ListObjectsComplete | sdpremote/routes/object.py:31-43 | every object of the scope that passes the key filter is listed |
| ObjectRoutes.ListObjectsUnfiltered | sdpremote/routes/object.py:38 | an absent or empty key lists the whole scope |
| ObjectRoutes.ListObjectsExact | sdpremote/routes/object.py:38-43 | an exact key lists just that object or nothing, and never more than the prefix filter |
| ObjectRoutes.GetData | sdpremote/routes/object.py:67-89 | NotFound exactly for a missing object; 204 exactly for falsy data; otherwise a redirect to blob `str(sid)` |
| ObjectRoutes.GetDataRedirectsToBlob | sdpremote/routes/object.py:84-89 | in a consistent database, the redirect names a claimed blob with the object's checksum |
| User.UserHeader | sdpremote/user.py:9-43 | every rejection is Unauthorized, and an accepted login is non-empty without `:` |
| User.UserCheck | sdpremote/user.py:46-53 | Forbidden exactly when a path user is given and differs from the login; otherwise the login |
| User.AuthenticatedUser | sdpremote/user.py:46-53 | the header is checked first (401), then the path user (403) |
| User.BasicHeaderWords | sdpremote/user.py:13-20 | `Basic <token>` splits into the scheme and the token |
| User.BasicRoundTrip | tests/test_user.py:34-37 | credentials `user:password` without a further colon give back the user; the password may be empty |
| User.ColonInPasswordRejected | sdpremote/user.py:35-37 | a password containing `:` is rejected |
| User.UndecodableRejected | tests/test_user.py:47-48 | a token that does not decode is rejected |
| User.EmptyUserRejected | sdpremote/user.py:39-41 | an empty user name is rejected |
| User.OtherSchemeRejected | tests/test_user.py:44-45 | any scheme other than the exact word `Basic` is rejected |
| User.ThreeWordsRejected | sdpremote/user.py:13-18 | a header of more than two words is rejected |
| User.PathUserCases | tests/test_user.py:51-59 | no path user or the login's own name is accepted; any other name is Forbidden |

## Left out

- FastAPI routing, pydantic validation, response classes and status codes. Outcomes are `Outcomes.Error` values.
- The SQL engine, async connections and `asyncio.to_thread`. Routes are all-or-nothing methods on one `Db.Database`; concurrent writers racing past the checksum guard are not modelled.
- The nested savepoint in `create_object` and `create_meta`. It matters only when a caller catches the exception, and no caller does.
- The MinIO client. The bucket is a map of blob names. `put_object` is modelled as reads of at most a given part size up to the announced size. `remove_objects` reports failures as an input set. `presigned_get_object` is reduced to the blob name. Bucket creation at import time is not modelled. A failing `put_object` is not modelled: it would abort the upload's transaction, consume the id and may leave a partial blob.
- `SThread` and `schedule` (sdpremote/storage.py:24-40, 67). They are timing and threading only.
- The sweep's two separate connections. A claim between its select and its delete is not modelled; the sweep is one step.
- SHA-256, base64 decoding and `datetime.utcnow()`. They are parameters: a function, a partial function, and an integer time in seconds.
- The `%` and `_` wildcards of SQL `LIKE`. The key and name filters are plain prefix tests.
- The `UnicodeDecodeError` a non-UTF-8 payload raises at sdpremote/user.py:28 is folded into the decoder's `None`. The debug `print` at sdpremote/user.py:50 is not modelled.
- `sdpremote/utils/user.py`, which `upload.py` imports, is not part of this model; the upload route takes the login as a parameter.
- The `metas` table's foreign keys are modelled as: to its scope, and to its object when an object key is given, both with cascade. The migration creating `metas` is not part of this model.
- `sdpremote/config.py`, `sdpremote/app.py`, `sdpremote/database.py`, `sdpremote/alembic/env.py` and the entity declarations. They hold configuration and record shapes only; the records are mirrored as datatypes.
- ScopePatch.PatchScope: requires distinct keys in the patch. A JSON object parsed into a Python dict cannot repeat a key.
- Storage.UploadObject: requires a positive part size. MinIO always reads in parts of a fixed positive size.

## Findings

| source | as written | input that shows it | evidently intended | confidence | as-written member | corrected member |
|---|---|---|---|---|---|---|
| sdpremote/storage.py:55-59 | `ids - errors` subtracts a set of `str` blob names from a set of `int` ids, so it never removes anything | expired ids `{7}`, with `remove_objects` reporting blob `"7"` as failed: row 7 is deleted and blob `7` stays with no row to sweep it | compare by `str(id)`, so rows whose blob failed are kept for a later run | not executed | Storage.SweptAsWrittenCounterexample | Storage.SweptIdsExact |
