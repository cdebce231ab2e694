# Task board: cache-aside service, task model and repository, in Dafny

This project models the back end of a small task board. Tasks live in a
`tasks` table, which is modelled as a sequence of rows. Reads go through a
best-effort Redis cache in cache-aside style:

- a hit returns the cached value;
- a miss reads the table, stores the result with a TTL and returns it;
- every successful write deletes the `tasks:*` keys.

There are four modules, one per source file, plus a helper module:

| file | module | models |
|---|---|---|
| `js.dfy` | `Js` | The JavaScript value semantics the code relies on: absent values, truthiness, `trim`, UTF-16 `length`, `join`, `Math.round` of a percentage, and `${id}`. |
| `task.dfy` | `Tasks` | `api/src/models/Task.js`: constructor defaults, `toJSON`, the enums and `validate`. |
| `redis.dfy` | `Redis` | `api/src/config/redis.js`: the module state (client, `isConnected`, `stats`) as class `Cache`, and the server as a map from keys to entries that remember their TTL. |
| `repository.dfy` | `Repository` | `api/src/repositories/taskRepository.js`: each SQL statement as an operation on the rows, and class `TaskRepository` over them. |
| `service.dfy` | `Service` | `api/src/services/taskService.js`: every operation as a pure step on a `World` (cache state plus table), and class `TaskService`, whose methods are proved to take exactly those steps. |

A fault can happen on any call into the Redis client. Each call therefore
takes a boolean saying whether that call fails. Time is a parameter
(`now`) wherever the database stamps a row.

The central invariant is `Service.Coherent`: the value cached under each of
the service's keys (`tasks:all`, `tasks:stats` and `tasks:<id>`) equals
what a miss would compute from the table now. It is proved for:

- every read;
- every failed write;
- every successful write whose invalidation reaches Redis.

In a coherent world every read answers as the table would. When
invalidation does not reach Redis, a stale list can be served
(`Service.FailedInvalidationServesStaleList`).

Four behaviours of the code are worth stating outright:

- `updateTask` never calls `validate` (`api/src/services/taskService.js:71-91`), so an update may store any status or priority.
- The DONE guard (`api/src/services/taskService.js:79`) only rejects a *truthy* status other than DONE. An update with `status: ""` passes it, `COALESCE` stores the empty string, and the task reads back as TODO (`Service.EmptyStatusBypassesDoneLock`).
- `total` (`api/src/services/taskService.js:122`) adds only the TODO, IN_PROGRESS and DONE counts, so rows with any other status appear in `byStatus` but not in `total`.
- The 200-character title cap (`api/src/models/Task.js:19`) measures UTF-16 code units, so a character outside the Basic Multilingual Plane counts twice.

`Repository.TaskRepository.constructor` starts from an empty table, while
`api/src/repositories/taskRepository.js:44` wraps whatever table the
database already holds. The service does not depend on that start:
`Service.TaskService.constructor` accepts any repository whose table
satisfies `TaskRepository.Valid`, and every `Service` lemma holds for
every valid table.

## Model

| member | source | states |
|---|---|---|
| Js.Truthy | api/src/models/Task.js:18 | `!x` on an optional string: absent, null and `''` are falsy (used by `Tasks.New`, `Tasks.Validate` and `Service.ChangesDoneStatus`) |
| Js.OrElse | api/src/repositories/taskRepository.js:21 | an optional string, or the fallback when it is falsy (stated by `Tasks.New` and `Repository.InsertedRow`) |
| Js.Trim | api/src/models/Task.js:18 | `String.prototype.trim` (stated by `Js.TrimStartSpec`, `Js.TrimEndSpec` and `Js.TrimEmptyIffAllWhitespace`) |
| Js.Join | api/src/models/Task.js:20-21 | `Array.prototype.join` (stated by `Tasks.EnumMessagesListValues` and `Service.InvalidCreateRejected`) |
| Js.TrimStartSpec | api/src/models/Task.js:18 | trimming the start removes a prefix of whitespace only and stops at a non-whitespace character |
| Js.TrimEndSpec | api/src/models/Task.js:18 | trimming the end removes a suffix of whitespace only and stops at a non-whitespace character |
| Js.TrimEmptyIffAllWhitespace | api/src/models/Task.js:18 | `title.trim().length === 0` holds exactly when the title is all whitespace |
| Js.Utf16Length | api/src/models/Task.js:19 | the JavaScript length lies between the number of characters and twice that |
| Js.Utf16LengthOfBmp | api/src/models/Task.js:19 | a title inside the Basic Multilingual Plane has its character count as length |
| Js.RoundedPercent | api/src/services/taskService.js:126 | `Math.round(part / whole * 100)` is the nearest integer to the percentage, halves rounded up, and at most 100 when part <= whole |
| Js.NatToString | api/src/services/taskService.js:15 | the decimal rendering is non-empty and made of digits |
| Js.IntToString | api/src/services/taskService.js:15 | `${id}` is non-empty and starts with a digit or a minus sign |
| Js.NatToStringInjective | api/src/services/taskService.js:15 | distinct natural numbers render differently |
| Js.IntToStringInjective | api/src/services/taskService.js:15 | distinct ids render differently |
| Tasks.FirstPresent | api/src/models/Task.js:9-10 | the snake-case timestamp when present, else the camel-case one (stated by `Tasks.New`) |
| Tasks.New | api/src/models/Task.js:3-11 | id and title are copied; a falsy description, status or priority becomes `''`, TODO or MEDIUM; timestamps come from the snake-case fields first, then the camel-case ones |
| Tasks.ToJsonList | api/src/services/taskService.js:29 | `tasks.map(t => t.toJSON())`, a definition; what the listed value holds is stated by `Service.MissStoresList`, `Service.CreateChangesList` and `Service.CoherentReadsAreFresh` |
| Tasks.ToJson | api/src/models/Task.js:25-27 | `toJSON` keeps the seven public fields (its properties are stated by `Tasks.ToJsonIdempotent` and `Tasks.ToJsonList`) |
| Tasks.ToJsonIdempotent | api/src/models/Task.js:25-27 | building a task from its JSON and projecting again yields the same seven fields |
| Tasks.EnumMessagesListValues | api/src/models/Task.js:20-21 | the enum messages list the allowed values joined by `', '` |
| Tasks.Validate | api/src/models/Task.js:16-23 | `isValid` exactly when there are no errors; the errors are among the four messages; each message is present exactly when its rule is violated |
| Tasks.ValidateOrdered | api/src/models/Task.js:17-22 | messages appear in rule order (title required, title length, status, priority), each at most once |
| Tasks.SelectionOrdered | api/src/models/Task.js:17-21 | the messages of any combination of violated rules are listed in rule order |
| Tasks.BlankTitleRequired | api/src/models/Task.js:18 | an empty or whitespace-only title is rejected as required |
| Tasks.TitleLengthBoundary | api/src/models/Task.js:19 | for a non-blank title in the Basic Multilingual Plane the length error fires exactly above 200 characters: 200 is accepted |
| Tasks.AbsentEnumsAccepted | api/src/models/Task.js:20-21 | an absent or empty status or priority is never an error |
| Redis.GetResult | api/src/config/redis.js:54-74 | the value `getCache` returns (stated by `Redis.PlainHit`, `Redis.PlainMiss`, `Redis.GetWhileDisconnected`, `Redis.GetFailureIsError`, `Redis.SetThenGet` and `Redis.NoMatchMeansMiss`) |
| Redis.AfterGet | api/src/config/redis.js:54-74 | the state `getCache` leaves (stated by `Redis.PlainHit`, `Redis.PlainMiss`, `Redis.GetWhileDisconnected`, `Redis.GetFailureIsError` and `Redis.GetCountedOnce`) |
| Redis.EffectiveTtl | api/src/config/redis.js:80 | the TTL `setEx` receives is never 0, and a non-zero `ttlSeconds` is used as given |
| Redis.AfterSet | api/src/config/redis.js:77-87 | the state `setCache` leaves (stated by `Redis.SetThenGet`, `Redis.SetWhileDisconnected` and `Redis.SetTtlChoice`) |
| Redis.AfterInvalidate | api/src/config/redis.js:90-101 | the state `invalidateCache` leaves (stated by `Redis.InvalidateRemovesMatches`) |
| Redis.HitRate | api/src/config/redis.js:22-25 | 0 with no lookups, else the hit percentage rounded half up, always within 0..100 |
| Redis.CountersNeverDecrease | api/src/config/redis.js:54-87 | over any sequence of operations and client events, hits, misses and errors never decrease |
| Redis.GetCountedOnce | api/src/config/redis.js:54-74 | each lookup raises exactly one counter by one and leaves the keys alone; it returns a value exactly when it counts a hit |
| Redis.PlainHit | api/src/config/redis.js:60-64 | a connected, non-failing get of a stored key returns its value and raises only `hits` |
| Redis.PlainMiss | api/src/config/redis.js:60-68 | a connected, non-failing get of an absent key returns null and raises only `misses` |
| Redis.GetWhileDisconnected | api/src/config/redis.js:55-58 | without a connected client a lookup returns null and only misses goes up |
| Redis.GetFailureIsError | api/src/config/redis.js:69-72 | a client failure during a lookup counts an error, not a miss, and returns null |
| Redis.SetThenGet | api/src/config/redis.js:60-65 | a value stored by a successful set is returned by the next successful get of that key, as a hit |
| Redis.SetWhileDisconnected | api/src/config/redis.js:78 | a set without a connected client changes nothing, counters included |
| Redis.SetTtlChoice | api/src/config/redis.js:80-86 | the TTL is `ttlSeconds` if non-zero, else a non-zero `REDIS_TTL`, else 60; a failed set only counts an error |
| Redis.Matches | api/src/config/redis.js:93 | the `KEYS tasks:*` pattern matches exactly the keys with that prefix (stated by `Service.KeysInNamespace` and `Redis.InvalidateRemovesMatches`) |
| Redis.InvalidateRemovesMatches | api/src/config/redis.js:90-101 | after a successful invalidation no matching key is left and the other keys keep their entries; disconnected or failing, nothing changes and no error is counted |
| Redis.NoMatchMeansMiss | api/src/config/redis.js:60-68 | once no key of a namespace is left, every lookup in it misses |
| Redis.Cache.constructor | api/src/config/redis.js:14-26 | module load: no client, disconnected, all counters zero |
| Redis.Cache.CreateClient | api/src/config/redis.js:31-33 | a client exists afterwards; nothing else changes |
| Redis.Cache.OnConnect | api/src/config/redis.js:40-43 | the connect event sets the connected flag and nothing else |
| Redis.Cache.OnError | api/src/config/redis.js:35-38 | the error event clears the connected flag and nothing else |
| Redis.Cache.Expire | api/src/config/redis.js:81 | an entry whose TTL ran out disappears; nothing else changes |
| Redis.Cache.GetCache | api/src/config/redis.js:54-74 | returns and counts as `GetResult`/`AfterGet` say, never throwing |
| Redis.Cache.SetCache | api/src/config/redis.js:77-87 | stores or counts an error as `AfterSet` says, never throwing |
| Redis.Cache.InvalidateCache | api/src/config/redis.js:90-101 | deletes the matching keys as `AfterInvalidate` says, never throwing |
| Repository.TaskRepository.FindAll | api/src/repositories/taskRepository.js:6-10 | `findAll` builds a task from every row of the listing order (specified by `Repository.Listing`) |
| Repository.PriorityRank | api/src/repositories/taskRepository.js:7 | the `CASE` rank lies between 1 and 4, and it is 4, sorting last, exactly for a priority outside HIGH, MEDIUM and LOW |
| Repository.InOrder | api/src/repositories/taskRepository.js:7 | the sort key: lower priority rank first, then newer `created_at` (its properties are `Repository.InOrderTotal` and `Repository.InOrderTransitive`) |
| Repository.InOrderTotal | api/src/repositories/taskRepository.js:7 | any two rows are comparable under the sort key |
| Repository.FromRow | api/src/repositories/taskRepository.js:16 | `new Task(row)` (stated by `Tasks.New` and `Repository.FromRows`) |
| Repository.FromRows | api/src/repositories/taskRepository.js:9 | one task per row, in order; each carries its row's id, title and both timestamps, and its status, with an empty stored status read back as TODO |
| Repository.InsertPermutes | api/src/repositories/taskRepository.js:7 | placing a row in the listing adds exactly that row |
| Repository.InsertKeepsBound | api/src/repositories/taskRepository.js:7 | placing a row keeps any row that may precede all of them in front |
| Repository.InsertOrdered | api/src/repositories/taskRepository.js:7 | placing a row in an ordered listing keeps it ordered |
| Repository.Listing | api/src/repositories/taskRepository.js:7-9 | `findAll` lists every row exactly once (a permutation), HIGH before MEDIUM before LOW before any other priority, newest `created_at` first within a priority |
| Repository.Lookup | api/src/repositories/taskRepository.js:13-16 | null exactly when no row has the id, otherwise a row with that id |
| Repository.LookupUnique | api/src/repositories/taskRepository.js:13-16 | with unique ids the lookup finds the one row carrying the id |
| Repository.InsertedRow | api/src/repositories/taskRepository.js:20-21 | the inserted row takes `description || ''`, `status || 'TODO'`, `priority || 'MEDIUM'` and the statement's timestamp (used by `Service.ValidCreateAppends`) |
| Repository.AppendFresh | api/src/repositories/taskRepository.js:20-22 | the new row's id was unused, is found afterwards, and ids stay unique and below the sequence |
| Repository.Merged | api/src/repositories/taskRepository.js:26 | the row `COALESCE` leaves (stated by `Repository.MergeReplacesSuppliedFields`) |
| Repository.Coalesce | api/src/repositories/taskRepository.js:26 | SQL `COALESCE(supplied, current)`: only NULL keeps the current value (stated by `Repository.MergeReplacesSuppliedFields`) |
| Repository.MergeReplacesSuppliedFields | api/src/repositories/taskRepository.js:26-27 | each supplied field replaces the stored one, even when empty; a missing field keeps it; id and `created_at` are kept and `updated_at` is refreshed |
| Repository.UpdatedRows | api/src/repositories/taskRepository.js:26 | the table keeps its length, its ids and its creation times in place; rows with another id are untouched, and the row with the id gets `updated_at` set to the statement's time |
| Repository.UpdatedLookup | api/src/repositories/taskRepository.js:26-29 | the returned row is the merged row now stored under the id, and null when the id is missing |
| Repository.Without | api/src/repositories/taskRepository.js:33 | afterwards no row has the id and every other row remains |
| Repository.WithoutKeepsIds | api/src/repositories/taskRepository.js:33 | deleting keeps ids unique and in range |
| Repository.Bump | api/src/repositories/taskRepository.js:40 | one table row's contribution to the per-status count, folded into the zero seed; the model merges `GROUP BY status, COUNT(*)` and the `reduce` that copies each group's count into one per-row fold (proved equal to the per-status row counts by `Repository.StatusCountsSpec`) |
| Repository.StatusCounts | api/src/repositories/taskRepository.js:38-40 | the TODO, IN_PROGRESS and DONE buckets are always present |
| Repository.StatusCountsSpec | api/src/repositories/taskRepository.js:38-40 | a bucket exists for the seed statuses and for every status that occurs, and for no other; each holds the number of rows with that status |
| Repository.CountsCoverAllRows | api/src/repositories/taskRepository.js:40 | when all statuses are valid the three buckets sum to the number of rows |
| Repository.TaskRepository.constructor | api/src/repositories/taskRepository.js:44 | an empty table with a valid id sequence |
| Repository.TaskRepository.FindById | api/src/repositories/taskRepository.js:12-17 | null exactly when no row has the id, otherwise that row as a task |
| Repository.TaskRepository.Create | api/src/repositories/taskRepository.js:19-23 | appends exactly one row under a fresh id with `''`/TODO/MEDIUM defaults, keeps ids valid and returns the new task |
| Repository.TaskRepository.Update | api/src/repositories/taskRepository.js:25-30 | merges into the rows with the id, keeps ids valid, returns the merged task or null |
| Repository.TaskRepository.Delete | api/src/repositories/taskRepository.js:32-35 | removes the rows with the id, keeps ids valid, returns true exactly when such a row existed |
| Repository.TaskRepository.CountByStatus | api/src/repositories/taskRepository.js:37-41 | the loop folds the rows into the zero-seeded buckets, giving `StatusCounts` |
| Service.TaskKey | api/src/services/taskService.js:15 | `` `tasks:${id}` `` (stated by `Service.KeysInNamespace`, `Service.KeysDistinct` and `Service.TaskKeyInjective`) |
| Service.KeysInNamespace | api/src/services/taskService.js:13-17 | all cache keys match `tasks:*` |
| Service.KeysDistinct | api/src/services/taskService.js:13-17 | a per-task key is never `tasks:all` or `tasks:stats` |
| Service.TaskKeyInjective | api/src/services/taskService.js:15 | different ids have different keys |
| Service.ComputeStats | api/src/services/taskService.js:121-127 | `total` is TODO + IN_PROGRESS + DONE, `byStatus` is the counts, and the completion rate is 0 for total 0, else the rounded DONE percentage, within 0..100 |
| Service.CompletionRateRounds | api/src/services/taskService.js:126 | the completion rate is the DONE percentage rounded half up |
| Service.StatisticsOfTable | api/src/services/taskService.js:121-127 | the statistics count the rows per status; with valid statuses `total` is the number of tasks |
| Service.GetAllTasksStep | api/src/services/taskService.js:22-35 | one `getAllTasks` call as a step on the world (stated by `Service.HitIgnoresTable`, `Service.MissStoresList` and `Service.GetAllTasksKeepsCoherent`) |
| Service.GetTaskByIdStep | api/src/services/taskService.js:38-51 | one `getTaskById` call (stated by `Service.TaskByIdHit`, `Service.TaskByIdMissStores`, `Service.UnknownIdNotFound` and `Service.GetTaskByIdKeepsCoherent`) |
| Service.CreateTaskStep | api/src/services/taskService.js:54-68 | one `createTask` call (stated by `Service.InvalidCreateRejected`, `Service.ValidCreateAppends` and `Service.CreateKeepsCoherent`) |
| Service.UpdateTaskStep | api/src/services/taskService.js:71-91 | one `updateTask` call (stated by `Service.DoneStatusLocked`, `Service.UpdateMerges` and `Service.UpdateKeepsCoherent`) |
| Service.DeleteTaskStep | api/src/services/taskService.js:94-114 | one `deleteTask` call (stated by `Service.InProgressNotDeleted`, `Service.DeleteRemoves` and `Service.DeleteKeepsCoherent`) |
| Service.GetStatisticsStep | api/src/services/taskService.js:117-131 | one `getStatistics` call (stated by `Service.StatsHit`, `Service.StatisticsShape` and `Service.GetStatisticsKeepsCoherent`) |
| Service.HitIgnoresTable | api/src/services/taskService.js:24-25 | a hit returns the cached value, does not consult the table and changes only the counters |
| Service.MissStoresList | api/src/services/taskService.js:28-34 | a miss returns the table's listing through `toJSON` and stores exactly that under `tasks:all` for 60 s |
| Service.TaskByIdHit | api/src/services/taskService.js:39-40 | a `getTaskById` hit returns the cached value and changes only the hit counter |
| Service.TaskByIdMissStores | api/src/services/taskService.js:42-50 | a miss on an existing id returns the row's JSON, leaves the table alone and, with a working client, stores it under `tasks:<id>` for 60 s |
| Service.UnknownIdNotFound | api/src/services/taskService.js:39-47 | an id in neither cache nor table is a 404 and nothing is written to the cache |
| Service.InvalidCreateRejected | api/src/services/taskService.js:55-60 | invalid input is a 400 whose message is the errors joined by `', '`; nothing changes |
| Service.ValidCreateAppends | api/src/services/taskService.js:62 | a valid create appends one row under a fresh id, keeps the others and returns the new task |
| Service.ChangesDoneStatus | api/src/services/taskService.js:79 | the guard: the stored task is DONE and the request carries a truthy status other than DONE (stated by `Service.DoneStatusLocked` and `Service.EmptyStatusBypassesDoneLock`) |
| Service.DoneStatusLocked | api/src/services/taskService.js:79-83 | a DONE task refuses a truthy status other than DONE with a 400 and nothing changes |
| Service.UpdateMerges | api/src/services/taskService.js:85-90 | past the guards the request is merged into the row with the id, other rows are untouched and the merged task is returned; this includes a DONE task updated without a status or with DONE |
| Service.EmptyStatusBypassesDoneLock | api/src/services/taskService.js:79 | an empty status passes the guard on a DONE task; the row stores `''` and the task reads as TODO |
| Service.MissingIdNotFound | api/src/services/taskService.js:72-100 | a missing id is a 404 on update and delete, before any guard, and nothing changes |
| Service.InProgressNotDeleted | api/src/services/taskService.js:102-106 | an IN_PROGRESS task cannot be deleted: a 400 and the row remains |
| Service.DeleteRemoves | api/src/services/taskService.js:108-113 | past the guards the row is removed, the others remain, and the result is true |
| Service.StatsHit | api/src/services/taskService.js:118-119 | a `getStatistics` hit returns the cached value and changes only the hit counter |
| Service.StatisticsShape | api/src/services/taskService.js:117-131 | on a miss the statistics sum the three buckets, the rate is within 0..100 and 0 for an empty board, and the value is cached under `tasks:stats` for 30 s |
| Service.FailedWritesChangeNothing | api/src/services/taskService.js:54-114 | a failed create, update or delete changes neither table nor cache, so it never invalidates |
| Service.SuccessfulWriteClearsNamespace | api/src/services/taskService.js:62-111 | after a successful write with a working client no `tasks:` key is left, and, after each of create, update and delete, the next list read is a miss that reads the table |
| Service.ScenarioBodyValid | api/src/services/taskService.js:55 | the body `{title: "Write spec", priority: "HIGH"}` passes validation |
| Service.CreateThenComplete | api/src/services/taskService.js:54-91 | that body creates a TODO/HIGH task under the next id with both timestamps set, and updating it to DONE succeeds |
| Service.DoneTaskReopenRefusedThenDeleted | api/src/services/taskService.js:71-114 | a DONE task cannot go back to TODO and nothing changes; it can then be deleted and no row has its id |
| Service.FailedInvalidationServesStaleList | api/src/services/taskService.js:62-65 | when invalidation fails after a create, the next read returns the old list, which differs from the table's |
| Service.ReconnectServesStaleList | api/src/services/taskService.js:62-65 | a create made while the client is disconnected skips invalidation, so after the client reconnects the next `getAllTasks` serves the list from before the create |
| Service.CreateChangesList | api/src/services/taskService.js:62 | a successful create lengthens the task list by one |
| Service.EmptyCacheCoherent | api/src/config/redis.js:14-26 | an empty cache is coherent with any table |
| Service.EventsKeepCoherent | api/src/config/redis.js:35-43 | client creation, connect and error events keep the cache coherent |
| Service.ExpiryKeepsCoherent | api/src/config/redis.js:81 | a key expiring keeps the cache coherent |
| Service.CoherentReadsAreFresh | api/src/services/taskService.js:22-131 | in a coherent world every read answers exactly as a read of the table would |
| Service.StoreTaskKeepsCoherent | api/src/services/taskService.js:49 | caching a task's current record under its key keeps the cache coherent |
| Service.GetAllTasksKeepsCoherent | api/src/services/taskService.js:22-35 | `getAllTasks` keeps the cache coherent |
| Service.GetTaskByIdKeepsCoherent | api/src/services/taskService.js:38-51 | `getTaskById` keeps the cache coherent |
| Service.GetStatisticsKeepsCoherent | api/src/services/taskService.js:117-131 | `getStatistics` keeps the cache coherent |
| Service.CreateKeepsCoherent | api/src/services/taskService.js:54-68 | a create keeps the cache coherent when it fails, or when it succeeds with a working client |
| Service.UpdateKeepsCoherent | api/src/services/taskService.js:71-91 | an update keeps the cache coherent on the same terms |
| Service.DeleteKeepsCoherent | api/src/services/taskService.js:94-114 | a delete keeps the cache coherent on the same terms |
| Service.TaskService.constructor | api/src/services/taskService.js:134 | the service drives the given cache and repository |
| Service.TaskService.GetAllTasks | api/src/services/taskService.js:22-35 | the result and new state are those of `GetAllTasksStep`; the table is untouched |
| Service.TaskService.GetTaskById | api/src/services/taskService.js:38-51 | the result and new state are those of `GetTaskByIdStep`; the table is untouched |
| Service.TaskService.CreateTask | api/src/services/taskService.js:54-68 | the result and new state are those of `CreateTaskStep`; ids stay valid |
| Service.TaskService.UpdateTask | api/src/services/taskService.js:71-91 | the result and new state are those of `UpdateTaskStep`, with no input validation; ids stay valid |
| Service.TaskService.DeleteTask | api/src/services/taskService.js:94-114 | the result and new state are those of `DeleteTaskStep`; ids stay valid |
| Service.TaskService.GetStatistics | api/src/services/taskService.js:117-131 | the result and new state are those of `GetStatisticsStep`, with the counts taken by the repository's fold |

## Left out

- Real Redis and PostgreSQL clients are not modelled: URL construction, the `connect()` promise, connection pools and timeouts. The server, the table and the database's `CURRENT_TIMESTAMP` are replaced by a map, a row sequence and a `now` parameter.
- `api/src/config/database.js` is not part of this model.
- `redisHealthCheck` (the `PING` probe) is not modelled.
- Client connect and error events occur between service operations, not between the cache calls of one operation: each step fixes whether the client is ready when it starts. A connection drop inside one `getAllTasks` (the get fails, then `setCache` returns early without counting) is not a trace of the model.
- Wall-clock TTL expiry is not modelled. Each entry records its TTL, and expiry is an explicit `Redis.Cache.Expire` step that may happen at any time.
- Redis.Cache.SetCache: counting a non-positive TTL as an error rests on Redis rejecting such expire times. `REDIS_TTL` parsing is a parameter (`redisTtl`).
- Redis.Matches: the `KEYS` pattern is only the prefix-wildcard form `tasks:*`. The rest of the glob syntax is not modelled.
- Repository.Listing: rows that tie on priority rank and `created_at` are listed in table order. The database leaves that order unspecified.
- Tasks.Validate: title, status and priority are strings or absent; non-string JSON values are not modelled. UTF-16 length counts a supplementary character as two code units, but lone surrogates are not modelled.
- Tasks.ToJsonIdempotent: a cached payload is an opaque value that round-trips exactly. JSON details such as a `Date` coming back as a string are not modelled.
- Js.RoundedPercent: rounding is exact integer half-up rounding. JavaScript's floating-point division can differ at exact halves: 29/200·100 evaluates to 14.4999…, which rounds to 14, while the model gives 15.
- Service.TaskService.UpdateTask: operations are sequential. Races are not modelled: a delete between `findById` and `update`, which makes `task.toJSON()` throw on null, and a concurrent read repopulating the cache during a write.
- Table constraints of the schema, such as a NOT NULL title, are not modelled. Ids are unique by the `Valid` invariant of `TaskRepository`.
- HTTP routing, controllers (`parseInt` of the id, so an id is an integer here), the error handler (a missing `statusCode` becomes 500), the server and the frontend are out of scope.
- Repository.TaskRepository.constructor: the repository starts from an empty table. The tables the service then reaches keep rows in ascending id order and, since `createTask` validates first, have a title in every row; the repository's own `Create` stores a missing title as NULL. A table the database already holds may list rows in another order, which only decides how `Listing` orders rows that tie on both sort keys. The service lemmas do not depend on the start, because they hold for every valid table.
- Console logging is out of scope.
- Js.IntToString: ids are integers far below 10^21. JavaScript renders a number from 1e21 on in exponent form (`"1e+21"`), and the model's decimal rendering does not.
