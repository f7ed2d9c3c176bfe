# Verified model of the cached user module

A Dafny 4.11 model of the parts of this template that decide whether its data is right: the
read-through cache over the `users` table and the repository that fills and invalidates it, the
optimistic-lock writers and by-id readers under interleaving, registration under a lock, page
listings, the token bucket, and the cache metrics. `dafny verify dfyconfig.toml` checks everything.

## What is modelled

- **Data.** A table is a map from id to row; soft-deleted rows stay in it and still count for the
  unique columns. Redis is a map from string to string. Keys are the strings of `user_cache.go`.
  Rows are cached as bytes of a self-delimiting codec that stands in for `encoding/json`; only
  "decoding undoes encoding", "an encoded row starts with a brace" and "decoding accepts nothing
  that does not" are used of it.
- **Failures.** Every Redis call has a fate: done, no client, rejected by the breaker, or failed.
  Fates, database errors, lock results, automatic ids and clock readings are parameters, so each
  theorem ranges over all of them. Expiry is removal of any keys at any time.
- **Sequential operations.** `Redis`, `CachedDB`, `UserRepo`, `UserUsecase`, `LocalMetrics`,
  `CompositeMetrics`, `PerKeyMetrics` and `Limiter` are classes whose methods follow the source
  statement by statement and are proved equal to specification functions; the theorems are about those.
- **Interleavings.** Where clients overlap (`Interleaving`, `Registration`, `SharedFlight`,
  `SharedReads`, `PerKey`), one step is one database, cache, lock or atomic operation of one client, and theorems
  quantify over all runs of any number of clients.

## Main results

1. *Refinement* (`Refinement.CacheUnnoticed`): no run of whole operations with tracked lookups, no
   negative ids and effective deletions can tell the cached repository from the plain table.
   `Transparency.TransparentExactly` says for which lookups this holds: exactly those whose id is
   not negative or whose username or email is not empty. `Transparency.EmptyLookupPoisonsId` shows
   that an empty-username lookup makes a later lookup by id return a different user.
2. *Staleness is confined* (`Staleness.StalenessConfined`): over whole operations, if deletions are
   lost, only the entries they should have removed, and id keys a lost pointer names, can be wrong;
   deleting the suspects restores coherence. Suspects whose deletion failed with a Redis error are
   owed by a background deletion, and performing these mends them (`PendingDeletions`). `Misdirection.LookupSpoilsExactly` says when a lookup
   makes an id's entry wrong, `Misdirection.SpoilableExactly` when lookups and expiries ever can,
   and `Misdirection.LooksSpoilExactly` when lookups alone can. Late deletions can hurt
   (`LateDeletionStory`): `Misdirection.LateDeletionSpoilsExactly` says which ones make an entry
   spoilable by lookups that was not so before.
3. *Optimistic locking* (`OptimisticLock`): a conditional write goes through exactly on the row its
   client read, versions count commits, and deletion is final. Whatever ran in between, the keys
   computed from the row read earlier cover every tracked lookup the write changes
   (`InterleavedCoverage.CommitCoverage`).
4. *Reads under interleaving.* Clients look up by id and by unique column, one call at a time, and
   a lookup by column that hits its entry queries by the column although it stores under the id.
   `Settling.FreshExactly`: a committed update, delete or create settles its row's entry if and
   only if no reader holds another answer for the id than the present one, and no pointer to the
   id, cached, in hand or being followed, comes from a column value that the row does not have or,
   if the row is deleted, that a user has or may still take.
   `IndexSettling.IndexFreshExactly` says when the entries of the row's columns settle.
   `Fabrication.HonestExactly`: what is cached and told about an id was always the database's
   answer for it at some moment if and only if no query that followed a pointer got an answer the
   database had never given for the id. `IndexRace.LiveRowNotFound` is a run in which every call is
   done and nothing expires, and a lookup by id is told that a row which was live throughout does
   not exist. Callers who share a flight are told what its one query was answered
   (`SharedReads.SharedAnswers`), which may be older than a write of their own.
5. *At most one registration, exactly* (`Registration.AtMostOnceExactly`): where only registrations
   and readers run, the lock keeps usernames unique without the unique index if and only if lookups
   under it do not fail, it is held to completion, deletions are not lost, and no reader, by id or
   by name (a login, say), stores or shares a "not found" after a row was created.
6. *Errors that hide a success* (`UserRepository.StoredButReportedExactly`): the only write that
   reports an error and has changed the table is a create whose last deletion fails. A registration
   that ends so has taken its username until an update gives the row another one, and no longer
   (`TakenNames.RetryIsRefused`, `TakenNames.FreedExactly`).
7. *Paging*, *token bucket*, *shared flights*, *metrics*: see the table.

Where the code differs from what one would expect of it, the model follows the code: a failed
lookup during registration counts as a free username; a rejected deletion reports success;
followers of a shared index lookup get an empty row; the last retry pause is never used; the page
offset wraps in 32 bits; ids below 1 and empty unique values are never invalidated.

## Model

| member | source | states |
|---|---|---|
| `Decimal.IntRoundTrip` | internal/model/user/data/user_cache.go:22-24 | the decimal rendering in an id key can be read back, for negative ids too |
| `Codec.DecodeEncode` | internal/pkg/cache/cache.go:160-172 | a cached row decodes to the row it was made from, whatever its fields contain |
| `Keys.KeyInjective` | internal/model/user/data/user_cache.go:22-32 | the three key functions are injective and their ranges are disjoint |
| `Keys.KindsOfEntry` | internal/pkg/cache/cache.go:130-138 | placeholder, pointer and encoded row are never confused with each other or with an empty entry |
| `Keys.ModelKeysAre` | internal/model/user/data/user_cache.go:34-52 | the keys of a row are those of exactly the lookups that find it and have a positive id or non-empty value |
| `Keys.ModelUniqueCacheKeys` | internal/model/user/data/user_cache.go:43-52 | the loop collects the username and email keys of the non-empty columns, in order |
| `Keys.ModelCacheKeys` | internal/model/user/data/user_cache.go:34-41 | the id key of a positive id followed by the unique keys |
| `CachedDatabase.MissedIndexStores` | internal/pkg/cache/cached_db.go:97-127 | an index step that misses leaves pointer and row each by its own call, the placeholder for a missing row, and nothing after an error |
| `CachedDatabase.RowWithoutId` | internal/model/user/data/user_repo.go:115-117 | a row without an id is stored and reported as not found |
| `Users.FirstIs` | internal/model/user/data/user_repo.go:98-109 | a single-row query returns the one live row that matches, and only that |
| `Users.SameRow` | internal/model/user/data/user_repo.go:121-123 | the row found by a unique column is the row found by its id |
| `Writes.ApplyKeepsTable` | migrations/000001_create_users_table.up.sql:2-5 | every committed write changes one row and keeps primary key and unique columns intact |
| `Writes.UpdateExactly` | internal/model/user/data/user_repo.go:53-79 | when an update commits, what it writes, and which of the two errors it reports otherwise |
| `Writes.RemoveExactly` | internal/model/user/data/user_repo.go:193-213 | a removal hides exactly one live row from every lookup and bumps its version |
| `Writes.DeletedKeys` | internal/model/user/data/user_repo.go:38-46 | the keys a write deletes are those of the tracked lookups matching the old or the new row |
| `Writes.Coverage` | internal/model/user/data/user_repo.go:58-60 | a lookup whose answer an undisturbed write changes has its key deleted exactly if it is tracked |
| `InterleavedCoverage.PurgesItsKeys` | internal/model/user/data/user_repo.go:58-60 | the entries an interleaved update or delete removes are those under its keys |
| `InterleavedCoverage.CreatePurgesItsKeys` | internal/model/user/data/user_repo.go:38-49 | the same of the two deletions of a create |
| `InterleavedCoverage.CommitCoverage` | internal/model/user/data/user_repo.go:53-79 | the same when other clients run between the read and the conditional write, with the keys of the row read |
| `Cache.Redis.CacheGet` | internal/pkg/cache/cache.go:187-206 | returns the entry, or nothing if Redis is missing, rejected, failing or has none |
| `Cache.Redis.CacheSet` | internal/pkg/cache/cache.go:208-224 | overwrites the entry if Redis takes the call, and changes nothing otherwise |
| `Cache.Redis.CacheSetNotFound` | internal/pkg/cache/cache.go:226-245 | stores the placeholder only where there is no entry |
| `Cache.Redis.CacheDel` | internal/pkg/cache/cache.go:247-263 | removes exactly the keys, and reports an error only for a Redis error, not for a rejection |
| `Cache.Redis.Take` | internal/pkg/cache/cache.go:126-173 | store, counters and reply of a read-through lookup for every fate of its calls, undecodable entries included |
| `Cache.SecondTakeIsFree` | internal/pkg/cache/cache.go:126-163 | a repeated lookup gives the same reply without a database query, placeholders included |
| `CachedDatabase.CachedDB.QueryRow` | internal/pkg/cache/cached_db.go:56-58 | is `Take` under the given key |
| `CachedDatabase.CachedDB.CacheTakeWithIndex` | internal/pkg/cache/cached_db.go:79-135 | the index step: placeholder, pointer, fresh row with both entries stored, or the query's error |
| `CachedDatabase.CachedDB.QueryRowIndex` | internal/pkg/cache/cached_db.go:60-77 | the two-level lookup, falling back to the column query on an index hit |
| `CachedDatabase.SecondIndexLookupIsFree` | internal/pkg/cache/cached_db.go:106-122 | after a filled index lookup the next one follows pointer and row without a database query |
| `CachedDatabase.CachedDB.Exec` | internal/pkg/cache/cached_db.go:137-149 | keys are deleted only after a committed write, and a background deletion of them is started exactly if their deletion ends in a Redis error |
| `UserRepository.UserRepo.GetUserByID` | internal/model/user/data/user_repo.go:95-104 | a lookup by id through its id key |
| `UserRepository.UserRepo.GetUserByUniqueIndex` | internal/model/user/data/user_repo.go:106-129 | a lookup by username or email through its index key |
| `UserRepository.UserRepo.CreateUser` | internal/model/user/data/user_repo.go:35-51 | row, deletions, retries and reply of a create, including the error after a stored row |
| `UserRepository.StoredButReportedExactly` | internal/model/user/data/user_repo.go:42-49 | a write reports an error and has changed the table exactly if it is a create that commits under a positive id and whose second deletion ends in a Redis error |
| `UserRepository.UserRepo.UpdateUser` | internal/model/user/data/user_repo.go:53-93 | row, deletions of old and new keys, retries and reply of an update |
| `UserRepository.UserRepo.DeleteUser` | internal/model/user/data/user_repo.go:193-214 | row, deletions, retries and reply of a soft delete |
| `UserRepository.StartedExactly` | internal/pkg/cache/cached_db.go:142-146 | which writes start a background deletion, and of which keys |
| `UserRepository.WrittenKeys` | internal/model/user/data/user_repo.go:38-60 | the keys deleted with each kind of write |
| `UserRepository.RefusedExactly` | internal/model/user/data/user_repo.go:53-79 | which error a write reports that changes nothing, and when |
| `PendingDeletions.FailuresArePending` | internal/pkg/cache/cached_db.go:142-146 | over every run a suspect whose deletion with its write ended in a Redis error is among the keys of a background deletion under way, or of one given up |
| `PendingDeletions.PerformingMends` | internal/pkg/cache/delay.go:25-27 | performing the pending deletions removes every such suspect and its entry |
| `PendingDeletions.PerformingRecovers` | internal/pkg/cache/delay.go:25-27 | if they name all suspects that have an entry, the cache is right again |
| `UserUsecases.UserUsecase.Register` | internal/model/user/biz/user.go:68-85 | lock, lookup, create and release in order; too many requests exactly if the lock is down or a registration of that very username holds it |
| `UserUsecases.LockKeyInjective` | internal/model/user/biz/user.go:70-71 | different usernames have different locks |
| `UserUsecases.LockedExactly` | internal/model/user/biz/user.go:70-75 | a username is locked exactly if it is among those being registered |
| `UserUsecases.RegisterOutcome` | internal/model/user/biz/user.go:77-84 | from any state and with any failures: when a row is stored, when success is reported, and when a stored row is reported as an error |
| `UserUsecases.RegisterExactly` | internal/model/user/biz/user.go:68-85 | from a healthy state, a registration stores its row exactly if the database is up and no row, deleted ones included, has the id, username or email |
| `TakenNames.RetryIsRefused` | internal/model/user/biz/user.go:68-85 | once a registration has stored its row, whatever it reported, no registration of the username stores another or succeeds after any run of lookups, writes, expiries and registrations that does not rename the row |
| `TakenNames.RegistrableExactly` | internal/model/user/biz/user.go:77-84 | in any state some registration of a username can store a row if and only if no row has it |
| `TakenNames.FreedExactly` | internal/model/user/data/user_repo.go:62-70 | the event after which a row's username can be registered is a committed renaming of the row, and nothing else |
| `TakenNames.RegisteredButReported` | internal/model/user/data/user_repo.go:45-49 | a concrete registration that stores its row, reports an error, and whose repetition is refused |
| `Refinement.ReadById` | internal/pkg/cache/cache.go:126-173 | a lookup by id of a coherent cache answers like the table and keeps it coherent |
| `Refinement.ReadByIndex` | internal/pkg/cache/cached_db.go:60-135 | so does a two-level lookup, including the column query under an id key |
| `Refinement.WriteFits` | internal/pkg/cache/cached_db.go:137-149 | a write that deletes its keys leaves no wrong entry |
| `Refinement.StepHealthy` | internal/model/user/data/user_repo.go:35-129 | every admissible operation keeps coherence, changes the table as the plain one would, and answers alike |
| `Refinement.CacheUnnoticed` | internal/pkg/cache/cached_db.go:60-149 | over every run the cached repository answers like the plain table |
| `Transparency.UntrackedNoticed` | internal/model/user/data/user_cache.go:36-48 | for each negative id and empty unique value there is a run with a wrong answer |
| `Transparency.TransparentExactly` | internal/model/user/data/user_cache.go:36-48 | lookups are transparent if and only if they are tracked |
| `Transparency.EmptyLookupPoisonsId` | internal/pkg/cache/cached_db.go:72-74 | a stale empty-username pointer stores another user's row under an id key |
| `Staleness.LookupBounded` | internal/pkg/cache/cached_db.go:67-74 | a lookup adds wrong entries only under id keys already under suspicion |
| `Staleness.StepConfined` | internal/pkg/cache/cache.go:252-262 | every operation with lost deletions keeps staleness within the suspects |
| `Staleness.StalenessConfined` | internal/pkg/cache/cached_db.go:137-149 | after any run a wrong entry is one whose deletion was lost or an id key a lost pointer has named |
| `Staleness.UnsuspectedAnswer` | internal/pkg/cache/cached_db.go:60-77 | a lookup that meets no suspect answers like the table |
| `Staleness.Recovery` | internal/pkg/cache/delay.go:25-27 | deleting the suspects makes the cache coherent again |
| `Staleness.LostPointerTaints` | internal/pkg/cache/cached_db.go:72-74 | following a lost pointer really leaves a wrong row under the id key |
| `Misdirection.LookupSpoilsExactly` | internal/pkg/cache/cached_db.go:67-74 | a lookup makes an id's entry wrong if and only if it reads an index entry naming the id, finds nothing readable there, and stores a successful column query's different answer |
| `Misdirection.SpoilableExactly` | internal/pkg/cache/cached_db.go:60-77 | some run of lookups and expiries makes an id's entry wrong if and only if it is wrong already or an index entry misnames the id |
| `Misdirection.LateDeletionExactly` | internal/pkg/cache/delay.go:8-29 | after a late deletion an id can still go wrong if and only if its wrong entry or a misnaming index entry was not among the keys |
| `Misdirection.LateDeletionHurtsExactly` | internal/pkg/cache/delay.go:25-27 | with everything reachable, a late deletion makes the next lookup spoil an id if and only if it removes the id's shielding entry and leaves the lookup's misnaming index entry |
| `Misdirection.LooksSpoilExactly` | internal/pkg/cache/cached_db.go:67-74 | some run of lookups, with every call done, makes an id's entry wrong if and only if it is wrong already or an index entry misnames the id and no entry shields it |
| `Misdirection.LateDeletionSpoilsExactly` | internal/pkg/cache/delay.go:8-29 | such runs can spoil an entry after a late deletion and could not before if and only if the entry was right and had shielded the id from all misnaming index entries, and is deleted while one of these is not |
| `LateDeletionStory.ShieldedReachable` | internal/pkg/cache/cache.go:252-254 | two rejected deletions lead from one user and an empty cache to such a shielded state |
| `LateDeletionStory.LateDeletionCanHurt` | internal/pkg/cache/cached_db.go:72-74 | there a late deletion of the id key makes a lookup store another user's row |
| `Accounting.StepBalanced` | internal/pkg/cache/cached_db.go:83-112 | each lookup keeps the counters in step with the number of lookups |
| `Accounting.LookupAccounting` | internal/pkg/cache/cache.go:127-156 | over every run misses are lookups, queries are flights, failures are at most queries, hits plus queries are misses plus undecodable hits |
| `Metrics.HitRateAtMostHalf` | internal/pkg/cache/metrics.go:49-56 | the rounded hit rate lies between 0 and one half whenever hits do not exceed misses |
| `Metrics.HitRateClose` | internal/pkg/cache/metrics.go:49-56 | it is within half a hundredth of hits over hits plus misses |
| `Metrics.LocalMetrics.Hit` | internal/pkg/cache/metrics.go:37 | raises the hit counter alone |
| `Metrics.LocalMetrics.Miss` | internal/pkg/cache/metrics.go:38 | raises the miss counter alone |
| `Metrics.LocalMetrics.DBOp` | internal/pkg/cache/metrics.go:39 | raises the query counter alone |
| `Metrics.LocalMetrics.DbFail` | internal/pkg/cache/metrics.go:40 | raises the failure counter alone |
| `Metrics.LocalMetrics.SingleFlight` | internal/pkg/cache/metrics.go:41 | raises the flight counter alone |
| `CompositeMetricsCollector.CompositeMetrics.constructor` | internal/pkg/cache/composite_metrics.go:8-22 | each collector that exists is kept as often as it was given, readable or not, and reads come from the first readable one |
| `CompositeMetricsCollector.PresentAll` | internal/pkg/cache/composite_metrics.go:10-20 | the same of the list of collectors |
| `CompositeMetricsCollector.CompositeMetrics.Record` | internal/pkg/cache/composite_metrics.go:24-52 | each collector gets an event as often as it was given, so a reader given once reports it once |
| `ReportedMetrics.Report` | internal/pkg/cache/composite_metrics.go:24-52 | over every run of lookups a composite whose reader was given once reports counts that balance as `LookupAccounting` says |
| `ReportedMetrics.RunCounts` | internal/pkg/cache/cache.go:127-156 | the counters of a run are those of the events its lookups send, in order |
| `Interleaving.SameVersionSameRow` | internal/model/user/data/user_repo.go:63 | a known row with the current version number is the current row |
| `Interleaving.StepInv` | internal/model/user/data/user_repo.go:53-79 | every call of every client keeps version histories, held rows and entries consistent |
| `Interleaving.RunInv` | internal/model/user/data/user_repo.go:35-79 | so does every run, which also keeps primary key and unique columns |
| `LoneLookups.IdHit` | internal/pkg/cache/cache.go:129-142 | a lookup by id that hits is told the entry and changes nothing |
| `LoneLookups.IdMiss` | internal/pkg/cache/cache.go:147-172 | one that misses is told the live row or that there is none, and leaves that behind |
| `LoneLookups.ColumnMiss` | internal/pkg/cache/cached_db.go:102-134 | a lookup by column without an entry is told the live row with the value and leaves pointer and row, or the placeholder |
| `LoneLookups.ColumnPlaceholder` | internal/pkg/cache/cached_db.go:87-90 | one that hits the placeholder is told that there is none |
| `LoneLookups.ColumnHit` | internal/pkg/cache/cached_db.go:91-95 | one that hits a pointer to a cached row is told that row |
| `LoneLookups.ColumnFollow` | internal/pkg/cache/cached_db.go:72-74 | one that hits a pointer to an uncached row is told the live row with the value, and leaves it under the id pointed to |
| `OptimisticLock.CommitReplacesWhatWasRead` | internal/model/user/data/user_repo.go:62-78 | a conditional write succeeds only on the whole row its client read; a changed row gives the concurrent-update error and a taken username or email the conflict, and nothing else does |
| `OptimisticLock.VersionsCountCommits` | internal/model/user/data/user_repo.go:63-70 | version growth equals the successful writes, and committed versions are never dropped |
| `OptimisticLock.VersionDeterminesRow` | internal/model/user/data/user_repo.go:63-70 | at any two moments equal version numbers mean equal rows |
| `OptimisticLock.DeletionIsFinal` | internal/model/user/data/user_repo.go:201-211 | no later call of any client changes a deleted row, although the update's condition does not test it |
| `Freshness.NamesAnswer` | internal/model/user/data/user_repo.go:106-129 | a column query whose value the row has, or that will never be answered for a deleted row, answers like a lookup of the row's id |
| `Freshness.StepFresh` | internal/pkg/cache/cached_db.go:60-135 | no call but a commit of the row spoils its clean entry, pointers or pending answers |
| `Settling.CleanStaysFresh` | internal/pkg/cache/cached_db.go:137-149 | without an older answer or a misnaming pointer the entry is absent or current from the deletion to the next write |
| `Settling.HolderSpoils` | internal/pkg/cache/cache.go:150-161 | a reader with an older answer makes the entry wrong after the deletion |
| `Settling.MissedSpoils` | internal/pkg/cache/cached_db.go:72-74 | so does one that follows a pointer by a value the row does not have, if need be after another user has taken it |
| `Settling.PointerSpoils` | internal/pkg/cache/cached_db.go:67-74 | so does such a pointer in the cache |
| `Settling.FreshExactly` | internal/pkg/cache/cached_db.go:137-149 | a committed write settles its entry if and only if nobody holds an older answer and no pointer, cached or followed, misnames the row |
| `Settling.WriteSettlesExactly` | internal/model/user/data/user_repo.go:35-51 | the same from the moment of any update, delete or create |
| `Settling.NobodyLookingIsEnough` | internal/model/user/data/user_repo.go:95-129 | in particular when nobody is looking the row up and no pointer to it is cached |
| `IndexSettling.IndexFreshExactly` | internal/pkg/cache/cached_db.go:106-122 | a write's deletion settles the entry of one of its row's columns if and only if nobody who has queried by the column is about to store another pointer |
| `IndexSettling.PurgesExactly` | internal/model/user/data/user_repo.go:38-60 | the deletions of a writer remove the entries they name and no others |
| `Fabrication.HonestExactly` | internal/pkg/cache/cached_db.go:60-77 | entries of an id and answers about it were always the database's answer for it at some moment if and only if no pointer-following query got an answer never given for it |
| `Fabrication.NamesNeverFabricates` | internal/pkg/cache/cached_db.go:72-74 | a query by id, or by a value the row has, never does |
| `Fabrication.NoFabricatedReads` | internal/pkg/cache/cache.go:129-163 | so runs without lookups by a column never do |
| `IndexRace.LiveRowNotFound` | internal/pkg/cache/cached_db.go:67-74 | a lookup by username that a renaming overtakes leaves "not found" under the id of a live row, with every call done |
| `Registration.SafeWithoutPerils` | internal/model/user/biz/user.go:68-85 | with lock and cache behaving, any number of overlapping registrations, failing creates included, among readers by id and by name creates at most one row |
| `Registration.FailedQueryBreaks` | internal/model/user/biz/user.go:78-81 | a failed lookup lets a taken username be registered again |
| `Registration.ExpiryBreaks` | internal/model/user/biz/user.go:71-75 | so does a lock that expires early |
| `Registration.LostDeleteBreaks` | internal/pkg/cache/cached_db.go:106-109 | so does a lost deletion of the placeholder the lookup has cached |
| `Registration.ReaderByIdBreaks` | internal/model/user/data/user_repo.go:45-49 | so does a by-id reader that stores an old not-found late |
| `Registration.ReaderByNameBreaks` | internal/model/user/biz/user.go:88-92 | so does a login that stores an old not-found late |
| `Registration.SharedFlightBreaks` | internal/pkg/cache/cached_db.go:97-130 | and so does one that shares it with a registration in its flight |
| `Registration.AtMostOnceExactly` | internal/model/user/biz/user.go:68-85 | where only registrations and readers run, at most one registration if and only if none of the five happens |
| `SharedFlight.ReplyExactly` | internal/pkg/cache/cached_db.go:127-134 | which callers of a flight get the database's answer |
| `SharedFlight.FlightsAgree` | internal/pkg/cache/cache.go:147-172 | a flight runs one query and all its callers get that answer, except index followers, who get an empty row |
| `SharedReads.SharedAnswers` | internal/pkg/cache/cache.go:147-172 | callers sharing a flight, by id or by a pointer, are all told what its query was answered, error included, at a moment after the flight began |
| `SharedReads.FollowerMissesItsOwnWrite` | internal/pkg/cache/cache.go:147-172 | a caller that deletes a row and then joins a flight under way is told the row is there |
| `Paging.DescendingIs` | internal/pkg/cache/cached_db.go:227 | the listing is strictly descending and has each selected row once |
| `Paging.ListUsers` | internal/model/user/data/user_repo.go:139-154 | total of the live users when counted and the page of those listed afterwards, each row's fields in the fields of the same name, page 1 and size 10 by default |
| `Paging.ListUsersByIdDesc` | internal/model/user/data/user_repo.go:173-187 | the page below the cursor, each row's fields in the fields of the same name, size 10 by default |
| `Paging.Defaults` | internal/pkg/cache/cached_db.go:191-198 | the same defaults below the repository, and that page 1 starts the listing |
| `Paging.PageIs` | internal/pkg/cache/cached_db.go:199-206 | the i-th user of a page has (page-1)*size + i users listed before it |
| `Paging.WrappedPage` | internal/pkg/cache/cached_db.go:205 | where the offset overflows, the page starts at the offset modulo 2 to the 32nd, or at the top if that is not positive |
| `Paging.PageExactly` | internal/pkg/cache/cached_db.go:205 | an offset page is the right slice for every listing if and only if (page-1)*size fits 32 bits |
| `Paging.PagesPartition` | internal/pkg/cache/cached_db.go:191-206 | consecutive pages join to a prefix of the listing, none missed or repeated |
| `Paging.PagesComplete` | internal/pkg/cache/cached_db.go:208-214 | enough pages give every live user once, as many as the total says |
| `Paging.CursorIsSliceExactly` | internal/pkg/cache/cached_db.go:216-228 | on a fixed table a cursor page is the slice after the cursor's row if and only if that row's id is positive |
| `Paging.CursorPageIsOffsetPage` | internal/pkg/cache/cached_db.go:191-228 | on a fixed table each later cursor page is the offset page |
| `Paging.CursorWalkIsOffsetWalk` | internal/pkg/cache/cached_db.go:191-228 | on a fixed table n steps of the whole walk are the first n offset pages joined, and enough of them the listing |
| `Paging.WalkDecreases` | internal/pkg/cache/cached_db.go:224-227 | over a changing table the walk's ids strictly decrease |
| `Paging.WalkWasLive` | internal/model/user/data/user_repo.go:175-177 | every returned user was live when its page was read |
| `Paging.WalkComplete` | internal/pkg/cache/cached_db.go:216-228 | a finished walk has returned every user live throughout |
| `Paging.WalkEnds` | internal/pkg/cache/cached_db.go:224-227 | the cursor bounds the number of pages left |
| `Paging.CursorWalkEnds` | internal/pkg/cache/cached_db.go:216-228 | a walk from the start ends, bounded by the first table's ids, and returns nobody twice |
| `Paging.CursorWalkStable` | internal/pkg/cache/cached_db.go:216-228 | such a walk returns every user live throughout exactly once |
| `Paging.NonPositiveCursorRestarts` | internal/pkg/cache/cached_db.go:224-226 | a last id below 1 is no cursor: the walk starts over |
| `RateLimit.Limiter.constructor` | internal/middleware/ratelimit/ratelimit.go:22-27 | a new limiter has no tokens and clock zero |
| `RateLimit.Limiter.Allow` | internal/middleware/ratelimit/ratelimit.go:30-40 | admits exactly if there is at least one token, takes it, and empties the bucket on refusal |
| `RateLimit.AdmittedExactly` | internal/middleware/ratelimit/ratelimit.go:30-40 | of n requests in a row all are admitted if and only if there are n tokens, and otherwise as many as whole tokens |
| `RateLimit.GainIs` | internal/middleware/ratelimit/ratelimit.go:45-48 | the gain of the laws below is rate times elapsed time |
| `RateLimit.Limiter.AddTokens` | internal/middleware/ratelimit/ratelimit.go:43-55 | refills for elapsed time up to the burst and ignores earlier clock values |
| `RateLimit.TokensConserved` | internal/middleware/ratelimit/ratelimit.go:30-55 | admitted, remaining and discarded tokens equal what was there plus rate times clock growth |
| `RateLimit.AdmissionBound` | internal/middleware/ratelimit/ratelimit.go:30-55 | between any two moments admissions are at most burst plus rate times clock growth |
| `RateLimit.BoundsExactly` | internal/middleware/ratelimit/ratelimit.go:22-27 | tokens stay between 0 and burst over all runs if and only if rate and burst are not negative |
| `RateLimit.RefillLaw` | internal/middleware/ratelimit/ratelimit.go:43-55 | refills in any order equal one refill at the latest time, cap included |
| `PerKey.StepEntries` | internal/pkg/cache/per_key_metrics.go:40-47 | a step publishes an empty entry, raises one counter of one key, or leaves the entries alone |
| `PerKey.CountsConserved` | internal/pkg/cache/per_key_metrics.go:49-77 | the overall counter is the sum over keys plus callers under way, and that sum is the inner counter plus callers under way |
| `PerKey.NoIncrementLost` | internal/pkg/cache/per_key_metrics.go:40-47 | the published entry of a key counts every increment made for it, despite racing allocations |
| `TopKeys.PerKeyMetrics.GetOrCreate` | internal/pkg/cache/per_key_metrics.go:40-47 | returns the key's entry, adding an empty one if there is none |
| `TopKeys.PerKeyMetrics.Record` | internal/pkg/cache/per_key_metrics.go:49-77 | an event raises the overall, the key's and the inner counter, and nothing else |
| `TopKeys.SortByRank` | internal/pkg/cache/per_key_metrics.go:108-110 | a permutation sorted by hits plus misses |
| `TopKeys.PrefixSelects` | internal/pkg/cache/per_key_metrics.go:108-114 | cutting any sorted listing selects the top keys |
| `TopKeys.PerKeyMetrics.TopKeys` | internal/pkg/cache/per_key_metrics.go:94-115 | min(n, keys) distinct keys, sorted, none outranked by one left out |
| `DelayedDeletion.AsyncDel` | internal/pkg/cache/delay.go:8-29 | the first attempt without a Redis error among those that retries and context allow decides: it deletes the keys if it reached Redis and nothing if it was rejected; without one nothing is deleted |
| `DelayedDeletion.RetryWrite` | internal/pkg/cache/cached_db.go:144 | what the three attempts after a write leave, for each of their outcomes |
| `DelayedDeletion.LastDurationUnused` | internal/pkg/cache/cached_db.go:144 | with as many durations as retries the last duration is never waited for |

## Left out

- Redis, GORM, MySQL, redsync, `singleflight` and the breaker: each is reduced to a map, a table, a lock, a shared call and a free choice. A write that reports an error is taken to have had no effect.
- JSON and time formatting: replaced by the codec described above. Timestamps, passwords and `Login` are not modelled.
- Column equality is exact string equality; the table's case-insensitive collation makes differently cased spellings share a row but not a key.
- Transactions: every write commits by itself. Nothing in the repository calls `Trans`.
- Expiry times: an entry may vanish at any moment, so nothing is said about how long it stays.
- Version numbers and counters are unbounded integers, not int64.
- `del_state` is a boolean; no statement writes any value but 0 and 1.
- Interleaving: an entry that does not decode, and an index entry that is no pointer, are left out; `Misdirection` has them for whole operations. Shared flights on an id key are in `SharedReads`; flights on an index key are in `SharedFlight` alone, without table and store.
- Registrations (`Registration`) run among readers of the username and of ids, not among updates and deletes of users.
- Cache.Redis.Take: an entry that does not decode leaves the caller's row as it was. In the source a type error in one field still fills the others, and a non-zero id left there would join the condition of the query that follows.
- Writes.Coverage: reads and writes in one step; `InterleavedCoverage.CommitCoverage` is about writes that others interleave with.
- TopKeys.PerKeyMetrics.TopKeys: a negative count, on which the source panics, is excluded by the parameter type, and the counters are read at rest.
- CompositeMetricsCollector.CompositeMetrics.Record: a collector that is not `LocalMetrics` is represented by five counters as well.
- `ListUsersByStatus`, `FindSum`, `FindAll`, ascending id pages and the truncating hit rate of the per-key collector: same shape as what is modelled.
- HTTP handlers, middleware wiring, configuration, logging, tracing, Prometheus and generated code.
