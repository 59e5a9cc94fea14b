# stock-backend: verified models

Dafny 4.11 models of the parts of stock-backend whose correctness rests on more than one function:
transactions that interleave, caches that race, windows that slide, calendars that wrap. Every property is
proved for all inputs, all runs or all reachable states. `dafny verify dfyconfig.toml` checks the whole project.

Code that computes a value is a function here; code that changes things step by step is a method or a class
with a specification function beside it; code whose point is concurrency is a state machine whose steps are the
single SQL statements and Redis commands.

## Refresh-session rotation (internal/feature/auth)

- `SessionTable` is the table and its atomic operations, with a ledger that remembers each family's chain of rows.
- `RotationProtocol` runs Rotate, Revoke, Create and DeleteExpired as interleaved Read Committed transactions:
  committed rows are kept apart from uncommitted ones, each UPDATE or DELETE takes its own snapshot and rechecks
  a row after waiting for it, and the advisory lock on the family is taken after an unlocked lookup.
- `RotationRefinement` shows that each commit is one atomic operation of the ledger, and `RotationSafety` that a
  family is always wholly live or wholly revoked, has at most one unconsumed row, and that a token is rotated at
  most once. `RotationOutcomes` gives every Rotate an instant at which it takes effect alone.
  `RotationRequests` says what Revoke, Create and DeleteExpired do in such runs.
  `RotationWithoutLock` is a run from the empty table that goes wrong when the family lock is not taken.
- `FamilyMachine` is the small machine each family follows: live with one current token, or dead. A run determines
  the events of each family, and the rows and all answers are those of the machine after these events.
- `RotationExpiry` shows that cleanup leaves a suffix of each chain, on one clock with one lifetime.
- `SessionService` holds the repository and the service as imperative code: statements in order, the `committed`
  flag, the rollback, and the factory closure. Token reuse detection follows section 4.14.2 of RFC 9700.

## Candle ingest (internal/feature/candles)

- `Calendar` has days as integers, the Gregorian calendar, ISO 8601 weeks and the string keys of weeks and months;
  `Decimal` and `Separators` are the string facts it and the deduplication keys need.
- `ExchangeTime` is a time zone as three functions with stated assumptions, and the key and start functions.
- `Candles` and `Aggregation` sort (some ordered permutation, since the sort is unstable), fold into buckets and
  trim the head. `HeadTrim` and `Reingest` prove what the trim is for, and `NextWindow` when two overlapping
  fetches amount to one. `Dedup` and `Ingest` are the pipeline,
  and `RollupMeaning` says in terms of days, weeks and months what it writes.
- `CandleRepository` is the table, the one-statement upsert and the newest-first query.

## Candle cache (internal/feature/candles)

- `CandleCache` has the keys, the envelope, the zone restoration and the caching repository as a class.
- `CacheProtocol`, `CacheInvariant` and `CacheSafety` run any number of readers and writers, with failing commands, expiry and a
  clock. A late SetNX may publish old data, so the guarantees are about how old and from whom.

## Watchlist ordering (internal/feature/watchlist)

- `WatchlistRepository` and `WatchlistUsecase` are the imperative code under an index checked at every UPDATE.
- `WatchlistProtocol`, `WatchlistInvariant`, `WatchlistSafety` and `WatchlistOrder` run concurrent Add, Remove and
  Reorder transactions of one user, with row locks, the user lock, snapshots and uncommitted keys.
  `WatchlistCondition` tells exactly when a Reorder cannot fail; `WatchlistContinuation` has the passages of runs it
  puts together.

## Rate limiters

- `SlidingWindow` is the Redis sorted-set script with key expiry (internal/transport/httpratelimit).
- `FixedWindow` is the blocking limiter of the batch jobs (internal/shared/clientratelimit).

## Connection string and quotes

- `Dsn` is the PostgreSQL connection string against the keyword/value grammar of libpq.
- `Quotes` is the concurrent quote collector.

## Where the code and its documentation differ

- Reordering is documented as safe against concurrent changes because the rows are locked and counted. The count
  sees neither a row that was added while the lock statement waited nor one that replaced another of the list. What
  commits is always the requested order, but the reorder can fail: `WatchlistCondition` proves that it is safe from
  failing if and only if the locked rows are those of the list and no other row has a key below the list's length,
  and builds, for every watchlist that is not empty, a run in which an accepted list fails on the unique index.
- The sliding window's key expiry is cut to whole seconds, so for a window of, say, 1.5 seconds the key disappears
  before the window has passed. Redis takes the time from its own clock besides, in milliseconds, so a request that
  is slower on its way than an earlier one can have the same effect. `SlidingWindow` proves the decisions exact if
  and only if the window plus what Redis's clock can gain on the callers' is at most the expiry plus one millisecond.
- Ingesting again is harmless, but a fetch that starts inside a month does not write that month; the row stays as an
  earlier fetch left it, even if that fetch ended inside the same month. `NextWindow` gives the exact condition under
  which two overlapping fetches amount to one.
- `quotePGValue` leaves vertical tab and form feed unquoted although the grammar takes them for spaces. `Dsn` proves
  that values read back exactly when they are quoted or free of both.

## Model

| member | source | states |
|---|---|---|
| SessionTable.LookupSound | internal/feature/auth/sqlc/queries.sql.go:273-282 | a lookup by token hash finds the one row with that hash, or none exists |
| SessionTable.OpKeepsInv | internal/feature/auth/session_repository.go:87-148 | every allowed atomic operation keeps the ledger invariant: uniform revocation, one unconsumed row at the end of an acyclic chain, unique hashes |
| SessionTable.RotateTableAnswers | internal/feature/auth/session_repository.go:87-148 | which of the six answers a Rotate gives, from the columns of the token's row, with 30 seconds of grace; the new row has the old one's user and family and the minted id, hash and expiry; what each answer leaves of the table |
| SessionTable.RevokeTableAnswers | internal/feature/auth/session_repository.go:164-194 | a known token revokes the live rows of its family and nothing else, an unknown one nothing |
| RotationProtocol.Step | internal/feature/auth/session_repository.go:64-199 | of all statements only a commit changes committed rows, and only a commit or rollback gives an answer |
| RotationRefinement.CommitRefines | internal/feature/auth/session_repository.go:87-148 | every commit of any transaction, in any interleaving, is one allowed atomic operation on the committed table |
| RotationRefinement.StepKeepsOthers | internal/feature/auth/session_repository.go:243-257 | no step of one transaction breaks what another has established under its locks |
| RotationSafety.StepKeepsInv | internal/feature/auth/session_repository.go:64-199 | every step of Rotate, Revoke, Create and DeleteExpired keeps the protocol invariant |
| RotationSafety.EveryRunIsSafe | internal/feature/auth/session_repository.go:79-113 | in every run each family is wholly revoked or wholly unrevoked, has at most one unconsumed row, and its rows form one acyclic chain of replacements ending there |
| RotationSafety.EveryStepIsAtomic | internal/feature/auth/session_repository.go:64-199 | whatever a step does to the committed rows is one atomic operation |
| RotationSafety.RotationsAreCounted | internal/feature/auth/session_repository.go:128-148 | the ledger counts the committed rotations of each token hash over a run |
| RotationSafety.RotatedAtMostOnce | internal/feature/auth/session_repository.go:62-148 | over a whole run a token hash is rotated successfully at most once, under any number of concurrent presenters |
| RotationSafety.FamiliesHaveOneUser | internal/feature/auth/session_repository.go:118-131 | in every run all stored sessions of a family belong to one user |
| RotationOutcomes.RotateIsAtomic | internal/feature/auth/session_repository.go:94-148 | the step that decides a Rotate acts and answers as the undisturbed Rotate on the rows committed then |
| RotationOutcomes.RotateMeans | internal/feature/auth/session_repository.go:94-148 | the same, column by column: answer, exchanged row and revoked family |
| RotationOutcomes.RevokeIsAtomic | internal/feature/auth/session_repository.go:152-194 | a committing Revoke revokes its token's family as it stands then, and leaves no row of it live |
| RotationOutcomes.DecisionIsFinal | internal/feature/auth/session_repository.go:72-77 | once decided, a Rotate's answer and effect are not changed by anyone |
| RotationOutcomes.RotateIsLinearizable | internal/feature/auth/session_repository.go:62-149 | every answered Rotate took effect alone at one instant of its duration |
| RotationOutcomes.DeadRowReadsInvalid | internal/feature/auth/session_repository.go:95-97 | the locked re-read of a revoked family's token leads to Invalid |
| RotationOutcomes.DeadTokenIsRejected | internal/feature/auth/session_repository.go:79-97 | a Rotate of a revoked family's token stays on its way to Invalid through every step of anybody |
| RotationOutcomes.RevokedForever | internal/feature/auth/session_repository.go:102-113 | after a revocation or a reuse detection commits, no row of the family is live again and later Rotates of its tokens answer Invalid or fail |
| RotationRequests.EveryRevokeMeans | internal/feature/auth/session_repository.go:152-194 | in every run a Revoke answers as the committed rows are when its answer is decided, and revokes the whole family of a known token |
| RotationRequests.CreateMeans | internal/feature/auth/session_repository.go:30-46 | a committed Create adds the requested row and nothing else |
| RotationRequests.CleanupIsThorough | internal/feature/auth/sqlc/queries.sql.go:121-124 | a DeleteExpired that commits has deleted every expired row that was committed when its statement began and still existed, no other, and cleared the references to them, whatever ran beside it |
| RotationWithoutLock.HalfRevokedWithoutLock | internal/feature/auth/session_repository.go:243-257 | without the family lock a run from the empty table ends with one family half revoked |
| RotationExpiry.StepStaysTimed | internal/feature/auth/session.go:167-189 | with one clock and one lifetime every step keeps expiries in chain order |
| RotationExpiry.SurvivorsAreASuffix | internal/feature/auth/sqlc/queries.sql.go:121-124 | after any rotations and cleanups the stored rows of a family are the newest part of its chain, in order of expiry |
| FamilyMachine.PresentSeesTheRow | internal/feature/auth/session_repository.go:94-116 | what the row says about a presented token is what the family machine answers: conflict up to and including 30 s after consumption, reuse later |
| FamilyMachine.AnswersAgree | internal/feature/auth/session_repository.go:94-124 | Rotate on the table answers as the family machine does |
| FamilyMachine.OpShown | internal/feature/auth/session_repository.go:94-148 | each table operation is a step of every family's machine |
| FamilyMachine.RotateIsPresentation | internal/feature/auth/session_repository.go:87-148 | a whole Rotate, whatever its answer, leaves the rows that the machine's state after the presentation shows; conflicts and refusals change nothing, late reuse kills |
| FamilyMachine.AnswerShown | internal/feature/auth/session_repository.go:94-148 | in the interleaved protocol the step that decides a Rotate is the presentation of its token, with the machine's answer |
| FamilyMachine.EveryRunSimulatesFamilies | internal/feature/auth/session_repository.go:62-199 | the rows stored after any run show, for each family, the machine's state after the events that this run has for it, step by step |
| FamilyMachine.EveryAnswerIsTheFamilys | internal/feature/auth/session_repository.go:94-148 | every answer any Rotate gets in a run is the machine's after the events before it |
| FamilyMachine.BornOnce | internal/feature/auth/session_repository.go:30-46 | no run creates a family that exists |
| FamilyMachine.DeadIsFinal | internal/feature/auth/session_repository.go:102-113 | a dead family stays dead |
| SessionService.SessionRepository.Create | internal/feature/auth/session_repository.go:30-46 | inserts one row or, on a constraint or storage error, nothing |
| SessionService.SessionRepository.Rotate | internal/feature/auth/session_repository.go:64-149 | the answer and the new rows, column by column; after any failure the table is untouched; the factory is called exactly for an accepted token |
| SessionService.SessionRepository.RotateInTransaction | internal/feature/auth/session_repository.go:79-148 | a committed transaction is the specified Rotate; an uncommitted one answers as it without a lasting effect |
| SessionService.SessionRepository.Revoke | internal/feature/auth/session_repository.go:152-194 | revokes the whole family of a known token, succeeds on an unknown one, and changes nothing on failure |
| SessionService.SessionRepository.DeleteExpired | internal/feature/auth/session_repository.go:197-199 | removes exactly the rows expired before the given time, clears references to them, and counts them, or fails and changes nothing |
| SessionService.SessionManager.Issue | internal/feature/auth/session.go:95-113 | succeeds exactly if all sources deliver, the insert works and id and hash are free; returns the drawn access and refresh tokens, whose row is the one added; a failure stores nothing |
| SessionService.SessionManager.Refresh | internal/feature/auth/session.go:116-153 | succeeds exactly if the token is accepted, all sources and statements work and the new values are free, with the drawn pair and an exchange in its favour; otherwise the refusal is that of the stored row, and only late reuse changes any |
| SessionService.SessionManager.Revoke | internal/feature/auth/session.go:157-165 | revokes the live rows of the token's family and nothing else; an empty or unknown token is a success without effect |
| Calendar.DayRoundTrip | internal/feature/candles/aggregation.go:121-148 | every day number names a valid date which names it |
| Calendar.DateRoundTrip | internal/feature/candles/aggregation.go:121-148 | every valid date is the date of its day number |
| Calendar.MonthLengths | internal/feature/candles/aggregation.go:121-148 | the dates are the Gregorian ones: 30, 31, and 28 or 29 days |
| Calendar.NextDayIsNextDate | internal/feature/candles/aggregation.go:121-148 | the day number after a date's is the next date's |
| Calendar.CountIsAnchored | internal/feature/candles/aggregation.go:121-148 | day 719162 is 1 January 1970 |
| Calendar.WeekdaysFollow | internal/feature/candles/aggregation.go:122-132 | that day is a Thursday, and the weekdays follow one another |
| Calendar.IsoWeekCountsFromFirstThursday | internal/feature/candles/aggregation.go:114-119 | the week number counts Mondays from the week of the year's first Thursday and lies in 1 to 53, as ISO 8601 defines it |
| Calendar.WeekKeysNameMondays | internal/feature/candles/aggregation.go:114-132 | two days have equal week key strings exactly when they have the same Monday, across year ends |
| Calendar.MonthKeysNameFirsts | internal/feature/candles/aggregation.go:135-148 | two days have equal month key strings exactly when they have the same first of the month |
| Calendar.MonthsAreApart | internal/feature/candles/aggregation.go:143-148 | different months start at least 28 days apart, in the order of their days |
| Decimal.ParseOfFormat | internal/feature/candles/aggregation.go:117-138 | zero-padded decimal printing loses nothing |
| ExchangeTime.WeekStartIsMonday | internal/feature/candles/aggregation.go:122-132 | the week start function yields the midnight of the week's Monday, Sundays included |
| ExchangeTime.WeekKeysFollowTime | internal/feature/candles/aggregation.go:114-132 | on tame bars equal week keys mean equal starts and later weeks start strictly later |
| ExchangeTime.MonthKeysFollowTime | internal/feature/candles/aggregation.go:135-148 | the same for months |
| ExchangeTime.MondaysAreFirst | internal/feature/candles/ingest.go:150-152 | with one bar per local day no earlier bar shares the week of a Monday bar |
| ExchangeTime.BucketDays | internal/feature/candles/ingest.go:150-160 | a week starts on its Monday and a month on its first, and on no other day |
| ExchangeTime.FirstsAreFirst | internal/feature/candles/ingest.go:158-160 | with one bar per local day no earlier bar shares the month of a bar on the 1st |
| ExchangeTime.FixedOffsetIsTame | internal/feature/candles/aggregation.go:113-148 | every zone without clock changes meets the assumptions |
| Candles.SortByTime | internal/feature/candles/aggregation.go:54-57 | some permutation of the bars in time order |
| Candles.SortIsUnique | internal/feature/candles/aggregation.go:53-57 | with distinct times there is only one such permutation |
| Aggregation.Aggregate | internal/feature/candles/aggregation.go:44-111 | the loop over the sorted bars and the bucket map computes the grouping of some valid sort |
| Aggregation.Collect | internal/feature/candles/aggregation.go:68-95 | the map holds one bucket per key and the key list is in order of first appearance |
| Aggregation.Emit | internal/feature/candles/aggregation.go:97-110 | the output lists the buckets in key order |
| Aggregation.BucketsSumUp | internal/feature/candles/aggregation.go:44-111 | per key: open and start of an earliest bar, close of a latest, greatest high, least low, summed volume, over the unsorted input; no key lost or repeated |
| Aggregation.OrderDoesNotMatter | internal/feature/candles/aggregation.go:53-57 | for distinct times every input permutation and every valid sort gives the same buckets |
| Aggregation.VolumeIsConserved | internal/feature/candles/aggregation.go:76-94 | the buckets' volumes add up to the input's volume |
| Aggregation.BucketTimesIncrease | internal/feature/candles/aggregation.go:68-110 | bucket times are pairwise distinct and strictly increasing |
| Aggregation.TrimIncompleteFirstBucket | internal/feature/candles/aggregation.go:26-40 | drops the first bucket exactly when the oldest bar is not on a bucket's first day |
| HeadTrim.TrimmedRows | internal/feature/candles/aggregation.go:26-40 | the rolled-up bars are exactly the buckets of the keys that survive the trim |
| HeadTrim.KeptBucketsAreWhole | internal/feature/candles/aggregation.go:23-40 | a bucket kept from a later part of a series has all its bars of the whole series there |
| HeadTrim.LaterPartAddsNothing | internal/feature/candles/aggregation.go:23-40 | every bar a later part rolls up to is one the whole series rolls up to |
| Dedup.DedupCandles | internal/feature/candles/ingest.go:177-188 | the loop with its seen map computes the deduplicated list |
| Dedup.KeepsFirstOccurrences | internal/feature/candles/ingest.go:177-188 | the output is exactly the first occurrences of the input's keys, in the input's order |
| Dedup.DedupedKeys | internal/feature/candles/ingest.go:177-188 | output keys are distinct and the key set is preserved |
| Dedup.DedupIsIdempotent | internal/feature/candles/ingest.go:177-188 | deduplicating twice is deduplicating once |
| Dedup.DedupKeyIsRowKey | internal/feature/candles/ingest.go:181-182 | for intervals without a bar character the string key and the row key tell the same bars apart |
| Dedup.BarCharactersCollide | internal/feature/candles/ingest.go:181-182 | otherwise two different rows can share a string key |
| Ingest.Label | internal/feature/candles/ingest.go:143-146 | the loop sets symbol and interval of every bar and nothing else |
| Ingest.IngestUsecase.IngestOne | internal/feature/candles/ingest.go:129-172 | on success the table is the old one with the batch upserted, on any error it is unchanged, and the statement never updates a row twice |
| Ingest.BatchKeysAreDistinct | internal/feature/candles/ingest.go:147-171 | all symbol, interval and time keys of a batch are distinct |
| Ingest.RollupsIncrease | internal/feature/candles/ingest.go:150-164 | weekly and monthly bars come out strictly increasing in time |
| Ingest.SecondDedupIsIdentity | internal/feature/candles/ingest.go:166-171 | the second deduplication is the identity on the joined bars |
| RollupMeaning.DailyBarsMean | internal/feature/candles/ingest.go:143-148 | the daily bars are the fetched ones under the symbol's code, the first of each moment |
| RollupMeaning.WeeklyBarsMean | internal/feature/candles/ingest.go:150-156 | the weekly bars are exactly the summaries of the weeks with bars, at the midnight of their Monday, but for a week in which the oldest bar comes after Monday |
| RollupMeaning.MonthlyBarsMean | internal/feature/candles/ingest.go:158-164 | the monthly bars are exactly the summaries of the months with bars, at the midnight of their first, but for a month in which the oldest bar comes later |
| RollupMeaning.IngestStores | internal/feature/candles/ingest.go:143-171 | the daily, weekly and monthly bars stand in the table under their code, interval and time, column by column |
| RollupMeaning.IngestTouchesNoOther | internal/feature/candles/ingest.go:143-171 | every other row stays |
| Reingest.ReingestChangesNothing | internal/feature/candles/ingest.go:143-171 | ingesting the bars of a series from any moment on again, in any order and with repetitions, leaves the whole candle table unchanged, given one bar per local day |
| Reingest.HeadlessResponseChangesNothing | internal/feature/candles/aggregation.go:23-25 | the same for a response cut off at the head |
| Reingest.CutBucketDiffers | internal/feature/candles/aggregation.go:23-25 | untrimmed, a cut bucket has the whole bucket's time but lacks the volume of the missing bars |
| NextWindow.NextWindowCompletesTheSeries | internal/feature/candles/ingest.go:143-171 | ingesting a window and then one that starts and ends later leaves any table as one ingest of both would, if the earlier window has the whole week and month in which the later one starts inside |
| NextWindow.CompleteExactlyIfHeadsAreSafe | internal/feature/candles/aggregation.go:23-40 | for bars with some volume that condition is exact: otherwise a weekly or monthly row is missing or short |
| CandleRepository.UpsertedRows | internal/feature/candles/repository.go:29-66 | a batch with distinct keys leaves each of its bars in the table and nothing else changed |
| CandleRepository.UpsertOfPresentRows | internal/feature/candles/repository.go:29-35 | upserting rows the table already holds changes nothing |
| CandleRepository.SeriesIsNewestFirst | internal/feature/candles/sqlc/queries.sql.go:13-20 | the ordered query lists each row of the symbol and interval once, newest first |
| CandleRepository.DbRepository.UpsertBatch | internal/feature/candles/repository.go:40-66 | one statement: all rows are written or none, and a repeated key is an error |
| CandleRepository.FindAnswers | internal/feature/candles/repository.go:70-107 | the answer to a query of n bars is the newest n rows of the series, newest first, with all columns and in the symbol's zone, or the size or zone error |
| CandleRepository.StoredBarsAreFound | internal/feature/candles/repository.go:29-107 | a bar of a batch comes back from a query that reaches that far |
| CandleRepository.DbRepository.Find | internal/feature/candles/repository.go:70-107 | the newest n rows as stated by FindAnswers, or the database error |
| CandleCache.KeysCollide | internal/feature/candles/caching_repository.go:219-232 | two requests share a cache key exactly when their escaped names agree |
| CandleCache.KeysAreInjective | internal/feature/candles/candleshttp/handler.go:21 | cache keys are distinct on all codes the handler accepts and all valid intervals |
| CandleCache.CacheRoundTrip | internal/feature/candles/caching_repository.go:163-206 | decoding an encoded answer gives it back exactly when every bar is shown in its own loadable zone |
| CandleCache.FoundBarsAreRestorable | internal/feature/candles/repository.go:82-106 | everything the repository returns survives the cache |
| CandleCache.PrefixOfLatest | internal/feature/candles/caching_repository.go:142-157 | the first n of the newest 200 are the newest n, errors included |
| CandleCache.UntouchedSeries | internal/feature/candles/caching_repository.go:89-97 | a batch changes the answers of no series it holds no bars of |
| CandleCache.DeletionKeepsCoherence | internal/feature/candles/caching_repository.go:99-110 | after an upsert, cached answers stay current if the keys of the batch's series are gone |
| CandleCache.FillKeepsCoherence | internal/feature/candles/caching_repository.go:148-155 | storing a series' answer under its key keeps every cached answer current |
| CandleCache.CachingRepository.constructor | internal/feature/candles/caching_repository.go:56-69 | five minutes and "candles" are the defaults; the cache starts coherent |
| CandleCache.CachingRepository.RestoreCachedTimezone | internal/feature/candles/caching_repository.go:187-206 | in place: succeeds exactly if every zone is named and loadable, and then shows every bar in its zone |
| CandleCache.CachingRepository.DecodeCachedCandles | internal/feature/candles/caching_repository.go:163-183 | accepts the current envelope and legacy arrays with zones, nothing else |
| CandleCache.CachingRepository.Find | internal/feature/candles/caching_repository.go:117-158 | for every outputsize the newest n rows of the table, whatever fails in Redis; a hit does not need the database, a miss stores the newest 200 for the lifetime |
| CandleCache.CachingRepository.ReadCache | internal/feature/candles/caching_repository.go:131-139 | answers exactly from a live readable entry, and deletes a live unreadable one |
| CandleCache.SafeReplaces | internal/feature/candles/caching_repository.go:226-232 | spaces and colons become underscores and nothing else changes |
| CandleCache.CachingRepository.FillFromDatabase | internal/feature/candles/caching_repository.go:142-155 | reads the newest 200 and stores them under the series' key with the lifetime unless the key is taken |
| CandleCache.CachingRepository.UpsertBatch | internal/feature/candles/caching_repository.go:79-111 | writes as the database repository, deletes the keys of the batch's series, and keeps coherence if no deletion fails |
| CacheInvariant.StepKeepsInv | internal/feature/candles/caching_repository.go:71-158 | every command of every reader and writer, failures, eviction and foreign entries included, keeps the invariant |
| CacheSafety.CachedAnswersAreRecentVersions | internal/feature/candles/caching_repository.go:131-157 | a cached Find returns the first n rows of one committed version, current no longer ago than the lifetime plus the filling reader's time from read to SetNX |
| CacheSafety.UncachedAnswersAreCurrent | internal/feature/candles/caching_repository.go:125-146 | a Find that missed or bypassed the cache returns what one version held when it read |
| CacheSafety.OnlyLateFillersPublishStale | internal/feature/candles/caching_repository.go:148-155 | after a successful deletion only a reader already under way can store an older version |
| CacheSafety.CleanInvalidationIsFresh | internal/feature/candles/caching_repository_concurrent_test.go:71-73 | once the deletion for the last version that changed a series met no read under way, whatever is cached for it is current |
| CacheSafety.OtherSeriesLeaveItSettled | internal/feature/candles/caching_repository.go:89-97 | batches of other series do not take that away |
| CacheSafety.EntriesAreServed | internal/feature/candles/caching_repository.go:131-139 | a live readable entry is served, an unreadable one is to be deleted, and everything else is a miss |
| CacheSafety.DatabaseIsRead | internal/feature/candles/caching_repository.go:142-146 | a miss reads the newest 200 of the newest version, or fails as the database does |
| CacheSafety.LiveEntriesAreKept | internal/feature/candles/caching_repository.go:148-155 | what was read is stored for the lifetime, but never over a live entry |
| CacheSafety.CommittedBatchIsAnnounced | internal/feature/candles/caching_repository.go:79-97 | a writer whose batch is committed has the keys of all its series to delete and of no other |
| CacheSafety.EveryKeyIsTried | internal/feature/candles/caching_repository.go:99-110 | it deletes one key after the other and is done once all were tried |
| WatchlistRepository.Repository.UpdateSortKey | internal/feature/watchlist/sqlc/queries.sql.go:140-145 | one UPDATE under the immediately checked unique index |
| WatchlistRepository.Repository.UpdateSortKeys | internal/feature/watchlist/repository.go:87-144 | on a validated permutation it fails only if the database does; every error restores every key; other users' rows never change |
| WatchlistRepository.Repository.Shift | internal/feature/watchlist/repository.go:111-124 | phase 1 keeps the unique index after every UPDATE and gives the i-th entry the key -(i+1) |
| WatchlistRepository.Repository.Settle | internal/feature/watchlist/repository.go:125-138 | phase 2 keeps the unique index after every UPDATE and gives every entry its final key |
| WatchlistRepository.MidwayIsFree | internal/feature/watchlist/repository.go:84-86 | the next key of either phase is free in every intermediate table |
| WatchlistRepository.Repository.Add | internal/feature/watchlist/repository.go:55-62 | inserts the entry or reports a duplicate, a key clash, an unknown symbol or a failure, changing nothing |
| WatchlistRepository.Repository.AddWithNextSortKey | internal/feature/watchlist/repository.go:148-181 | the new row sorts after all others and the sort-key index cannot object |
| WatchlistRepository.Repository.MaxSortKey | internal/feature/watchlist/sqlc/queries.sql.go:127-131 | the greatest key of the user, or -1 |
| WatchlistRepository.Repository.Remove | internal/feature/watchlist/repository.go:66-78 | deletes the row or reports that there is none |
| WatchlistRepository.Repository.ListByUser | internal/feature/watchlist/repository.go:34-51 | every row of the user once, in strictly ascending key order |
| WatchlistUsecase.Usecase.ReorderSymbols | internal/feature/watchlist/usecase.go:77-112 | succeeds exactly on permutations of the user's codes (database permitting), and then the i-th code of the request stands at key i |
| WatchlistUsecase.EachOnce | internal/feature/watchlist/usecase.go:92-101 | the loop accepts exactly lists without repetition whose codes all exist |
| WatchlistUsecase.ListingIsTheRequest | internal/feature/watchlist/usecase.go:72-112 | with the i-th code at key i, any listing is the requested codes in their order |
| WatchlistUsecase.Usecase.InitializeDefaults | internal/feature/watchlist/usecase.go:122-143 | AAPL, MSFT and GOOGL, as far as they exist, stand at keys 0, 1 and 2 and nothing else changes; after an error those before it stay |
| WatchlistSafety.AddsNeverCollide | internal/feature/watchlist/repository.go:148-175 | in no run does MAX + 1 meet a committed key or one a concurrent Reorder has written; the new row sorts last |
| WatchlistSafety.ReordersExcludeEachOther | internal/feature/watchlist/repository.go:82-109 | in no run are two Reorders renumbering rows at the same time |
| WatchlistInvariant.AddNeverCollides | internal/feature/watchlist/repository.go:148-175 | the same for one state of the invariant |
| WatchlistInvariant.DistinctKeysNeedRoom | internal/feature/watchlist/sqlc/queries.sql.go:127-131 | distinct non-negative keys up to MAX mean at most MAX + 1 rows |
| WatchlistInvariant.OneRenumbersAtATime | internal/feature/watchlist/repository.go:100-109 | two Reorders cannot both be renumbering rows: the later lock statement needs the earlier one's rows |
| WatchlistSafety.StepKeepsInv | internal/feature/watchlist/repository.go:87-181 | every statement of concurrent Add, Remove and Reorder keeps the invariant |
| WatchlistSafety.EveryRunKeepsKeysDistinct | internal/feature/watchlist/repository.go:84-181 | in every reachable state the committed keys of a user are distinct and non-negative |
| WatchlistSafety.MaxMeans | internal/feature/watchlist/sqlc/queries.sql.go:127-131 | an Add reads the greatest committed key, or -1 |
| WatchlistSafety.InsertMeans | internal/feature/watchlist/repository.go:160-175 | in every run it inserts its code under the next key, or reports that the code is there |
| WatchlistSafety.AddMeans | internal/feature/watchlist/repository.go:148-181 | its commit adds that row, after all others, and nothing else |
| WatchlistSafety.RemoveMeans | internal/feature/watchlist/repository.go:66-78 | a Remove takes away the row of its code, or reports that there is none |
| WatchlistSafety.ListMeans | internal/feature/watchlist/usecase.go:77-101 | a Reorder goes on exactly with a permutation of the listed codes |
| WatchlistSafety.LocksAreCounted | internal/feature/watchlist/repository.go:100-109 | and then exactly with as many locked rows as codes |
| WatchlistOrder.ExactFromTheStart | internal/feature/watchlist/repository.go:100-109 | a Reorder whose locks cover all rows and whose codes name them is exact |
| WatchlistOrder.ExactReordersNeverFail | internal/feature/watchlist/repository.go:111-138 | an exact Reorder only commits or is aborted from outside, whatever is added or removed meanwhile |
| WatchlistOrder.SmallerKeyFails | internal/feature/watchlist/repository.go:126-134 | a row outside the locks with a key below the list's length makes its turn's UPDATE fail, and every key stays as it was |
| WatchlistOrder.CommitGivesRequestedOrder | internal/feature/watchlist/repository.go:125-143 | the commit of any Reorder, exact or not, leaves the requested codes at keys 0, 1, 2, ... and every other row after them |
| WatchlistCondition.SafeExactlyIfExact | internal/feature/watchlist/repository.go:82-138 | at the end of its lock statement a Reorder is safe from every mismatch and key clash, in every continuation of the run, if and only if it is exact |
| WatchlistCondition.AcceptedReorderFails | internal/feature/watchlist/repository.go:82-134 | for every watchlist that is not empty and every permutation of its codes there is a run in which that accepted list fails on the unique index |
| WatchlistCondition.UndisturbedReorder | internal/feature/watchlist/repository.go:87-144 | a Reorder of a permutation that no other transaction gets in the way of commits the requested order |
| SlidingWindow.Limiter.Allow | internal/transport/httpratelimit/limiter.go:80-127 | the verdict and the new log are the script's; without Redis the policy decides and nothing is recorded; other keys are untouched |
| SlidingWindow.Limiter.RunScript | internal/transport/httpratelimit/limiter.go:64-73 | command by command: trim, count, add and set the expiry |
| SlidingWindow.DecidesLikeHistory | internal/transport/httpratelimit/limiter.go:64-73 | a request is allowed exactly if fewer than limit earlier admissions lie in its window, key expiry included, for every window the expiry covers under the given clock skew |
| SlidingWindow.NoWindowHoldsMore | internal/transport/httpratelimit/limiter.go:56-73 | no half-open span of one window holds more than limit admissions |
| SlidingWindow.CoveredWindows | internal/transport/httpratelimit/limiter.go:98 | on one clock the covered windows are those of at most one second or of whole seconds, give or take a nanosecond |
| SlidingWindow.EarlyExpiryAdmitsMore | internal/transport/httpratelimit/limiter.go:98 | for every limit, each request of the window that finds the key expired is admitted beyond the limit |
| SlidingWindow.ExactExactlyIfCovered | internal/transport/httpratelimit/limiter.go:64-98 | the script decides like the full history on all requests within the clock skew if and only if the expiry covers window and skew |
| FixedWindow.RateLimiter.WaitIfNeeded | internal/shared/clientratelimit/limiter.go:30-59 | the new counter and the grant are those of the specified call; a cancelled wait restores the counter for a limit of at least one |
| FixedWindow.CancellationRestores | internal/shared/clientratelimit/limiter.go:47-51 | exactly when a cancelled wait restores count and lastReset |
| FixedWindow.WaitsForTheWindowsEnd | internal/shared/clientratelimit/limiter.go:37-57 | a call that finds the window full can be granted when the window ends and not before |
| FixedWindow.WindowsAreSpacedAndBounded | internal/shared/clientratelimit/limiter.go:31-57 | over every run window starts are at least one interval apart and no window grants more than limit calls |
| FixedWindow.SpansAreBounded | internal/shared/clientratelimit/limiter.go:31-57 | any span of k intervals holds at most (k + 1) * limit granted calls |
| Dsn.ValueRoundTrip | internal/infra/db/config.go:131-138 | the grammar reads a printed value back exactly when it is quoted or free of vertical tab and form feed |
| Dsn.TwoReplacementsEscape | internal/infra/db/config.go:132-136 | the two replacements in their order escape every backslash and every quote once |
| Dsn.PlainValues | internal/infra/db/config.go:131-138 | a value is printed as it is exactly if it is not empty and has no space, tab, line break, equals sign, quote or backslash |
| Dsn.DsnRoundTrip | internal/infra/db/config.go:107-125 | parsing the connection string gives exactly the configured host, port, user, password, database and mode, without host and port for the connector, if and only if every value survives |
| Quotes.BuildQuote | internal/feature/candles/quotes.go:136-169 | of at least two bars: the newest close and time, the change and percentage against the close before, and the newest closes from old to new; none otherwise |
| Quotes.GetQuotes | internal/feature/candles/quotes.go:71-131 | for every completion order of the workers the same answer; a failure exactly if a worker was interrupted |
| Quotes.EachCodeLandsOnce | internal/feature/candles/quotes.go:52-57 | each code is in exactly one list, at its place in the input order, with its own bars |
| Quotes.PositionsPartition | internal/feature/candles/quotes.go:68-70 | the quoted and the failed positions partition the input |
| Quotes.QuotedPositions | internal/feature/candles/quotes.go:85-105 | the quoted positions are those whose query gave at least two bars |
| Quotes.ClosesRunForward | internal/feature/candles/quotes.go:158-166 | closes run from old to new and end with the latest close |

## Left out

- RotationSafety.EveryRunIsSafe: two families whose names hash to the same advisory lock only wait longer; the model locks by family name.
- RotationSafety.RotatedAtMostOnce: a commit reported as failed but applied is not modelled; a commit is applied or it is not.
- RotationExpiry.SurvivorsAreASuffix: needs one monotone clock, one lifetime and tokens presented no earlier than issued, as the other auth results do not.
- Ingest.IngestUsecase.IngestOne: times are whole seconds and prices are real numbers; NUMERIC(15,4) rounding and range errors are not modelled.
- ExchangeTime.WeekKeysFollowTime: the time zone database is three functions with stated assumptions; a zone whose local day runs backwards on the bars used, or a step into a clock change that lands on another day, is outside them.
- Reingest.ReingestChangesNothing: with two bars on one local day the trim cannot tell a whole bucket from a cut one, so one bar per local day is assumed.
- CandleCache.CachingRepository.Find: single-threaded and with fixed symbol time zones; the concurrent guarantees are in CacheSafety.
- CacheSafety.CachedAnswersAreRecentVersions: JSON encoding never fails in the model, and entries of other programs under the same keys are undecodable.
- WatchlistRepository.Repository.UpdateSortKeys: row ids, timestamps and the lock order by id are not modelled, and deadlocks are not considered.
- SlidingWindow.DecidesLikeHistory: timestamps reach Redis in order and random members differ; scores are exact integers.
- NextWindow.NextWindowCompletesTheSeries: the two fetches agree on the bars both hold; a bar the market corrected in between is not modelled.
- Quotes.GetQuotes: what each Find answers is an input, so the outputsize and the limit of eight workers do not show; a schedule is the order in which workers finish.
- FixedWindow.RateLimiter.WaitIfNeeded: the clock does not go back, and a timer fires no earlier than asked.
- Dsn.DsnRoundTrip: strings contain no NUL, which ends a C string.
- The join with users and the cascade from users to sessions and watchlists; sessions of a deleted user.
- Liveness: that a waiting transaction or reader gets its turn.
- The loop of IngestAll over all symbols, its counters and the failure rate: counting only.
- SHA-256, random tokens and JWT signing are distinct abstract values; bcrypt and HMAC are not part of this model.
- HTTP handlers, middleware, cookies, OAuth, logo detection, the market API client with its retries, configuration parsing and migrations.
- int64 overflow of volumes and floating-point rounding.
