# The DNO number store, modelled in Dafny

The repository keeps a Do-Not-Originate list: telephone numbers that should never appear as a caller ID. This project
models the Go backend's number store and the machinery around it, and proves what that machinery is for. `dafny verify
dfyconfig.toml` checks everything.

| file | what it models |
|---|---|
| `Wrappers.dfy`, `Collections.dfy` | Option, Result and the errors of the modelled calls; lists without repetition |
| `Phone.dfy` | number normalisation and the cache-key format |
| `NumberTable.dfy` | the tables `dno_numbers` and `number_registry`, and the five operations that write them |
| `TableRuns.dfy` | what every run of those five writers keeps, and which request can switch a number off |
| `TssSync.dfy` | the number registry and the TSS sync: which numbers it selects, when it fails, and that it then stays broken |
| `AutoSet.dfy` | the auto set after any history of porting events and other writes |
| `TtlCache.dfy` | the in-process TTL cache, against an ideal unbounded map |
| `Outcomes.dfy` | what a caller finds after each write, column by column |
| `Lookup.dfy` | what a lookup may answer, and when a cache agrees with the table |
| `Refinement.dfy` | one process's cached service as steps, each a step of the service without a cache |
| `Services.dfy` | QueryNumber, BulkQuery, AddNumber, RemoveNumber and the three registry operations as methods |
| `Staleness.dfy` | several processes with their own caches, every step interleaved with every other |
| `QueryLog.dfy` | the asynchronous query-log writer as a protocol of atomic sections |
| `Jobs.dfy`, `Convergence.dfy` | the bulk-job worker, and why races and crash re-runs are harmless |
| `Placeholders.dfy`, `QueryBuilders.dfy` | the `$N` to `?` rewriting and the queries built for it |
| `QueryReading.dfy` | the built WHERE clauses read as SQL: which rows they select |
| `Paging.dfy` | the filtered list, its order and ties, and its pages with Go's 64-bit offset |
| `Tally.dfy`, `Analyzer.dfy` | the batched traffic analysis |
| `Partitions.dfy` | the monthly query-log partitions over a Gregorian calendar |

Conventions. SQL statements are read the way SQLite executes them, over a map keyed by `(phone, channel)`. A lookup with
`LIMIT 1` and no `ORDER BY`, the iteration of a Go map, and the victims of a cache eviction are arbitrary choices, so
they are relations, and the results hold for every choice. Clocks are parameters. A database call succeeds unless a
property is about its failure. A method that changes state is tied to a specification function (`NumberTable.Apply`,
`TssSync.InsertEach`, `QueryLog.Do`, `Jobs.Finished`, `Partitions.Ensure`), and the properties are proved of that function over whole runs.

Places where the code does something other than what its names, comments or documentation suggest. The model follows the
code; each has a lemma with the exact condition or a concrete run.

- Normalising twice is not normalising once when a number leads with two country codes (`Phone.IdempotentIff`), as for
  every stored number that starts with 1 (`Phone.StartsWithOne`).
- After a successful remove the number may still be blocked (`TableRuns.MissAfterRemoveIff`, `TableRuns.RemoveMayStillHit`).
- Invalidating the cache after a write does not make a concurrent cache exact (`Staleness.StaleDespiteInvalidation`);
  it does exactly when no lookup stores an outdated answer after the invalidation (`Staleness.InvalidationIsExactIff`).
- One traceback of a synced toll-free number's text row, or one subscriber add before its first sync, makes every later
  TSS sync fail (`TssSync.SyncBreaksIff`, `TssSync.SyncStuck`, `TssSync.SyncBroken`).
- The limit of 3 retries holds of a job exactly when its payload decodes (`Jobs.RetryLimitIff`). Jobs enqueued by
  EnqueueBulkAdd always decode and never fail (`Jobs.EnqueuedNeverFails`); a job whose payload column is NULL or damaged
  is retried for ever and never recovers (`Jobs.RetriesWithoutEnd`, `Jobs.NoPayloadInstance`).
- A crashed job stays `processing`, which no tick selects: it is re-run only after someone resets it
  (`Jobs.StuckProcessing`).
- A traceback does not keep a number blocked: a later `disconnected` and then `ported` event switches its voice row off
  (`AutoSet.TracedRowOffIff`, `AutoSet.TracebackUndone`).
- A number added on top of another owner's or dataset's row cannot be removed by the adder
  (`TableRuns.AddThenRemoveIff`, `TableRuns.CannotTakeBack`).
- A lookup on channel `both` is accepted and logged, but its log entry is never stored (`QueryLog.OnlyStorableIsStored`).
- A worker that crashes while another runs the same job can leave another table, exactly when the job lists a number
  with two reasons (`Convergence.JobCrashSafeIff`, `Convergence.TwoReasonsDiverge`).
- Pages fetched by separate calls can repeat and skip rows when a page ends between rows of equal update time
  (`Paging.StablePagesIff`, `Paging.TiedPages`).
- A very large page number wraps around and serves rows again (`Paging.LaterPageEmptyIff`,
  `Paging.NegativeOffset`, `Paging.WrappedPage`).
- A spoofed number's count is the square of its records, and the "top" 20 are any 20 (`Analyzer.SpoofedCountIff`,
  `Analyzer.TwoRecordsCountFour`, `Analyzer.TopIsMostFrequentIff`, `Analyzer.MostFrequentOmitted`).
- On days 29 to 31 partition maintenance can skip a month (`Partitions.ThreeMonthsIff`, `Partitions.FebruarySkipped`).

## Model

| member | source | states |
|---|---|---|
| Phone.StripIffSpells | internal/service/dno.go:51-55 | Removing the four separators from an input gives a string exactly when the input is that string with separators inserted anywhere |
| Phone.NormalizesToIff | internal/service/dno.go:51-59 | For every ten-digit number, an input normalises to it exactly when it spells a country code and then the number: an optional `1`, `+1` or `+11`, but for a number that starts with 1 a required `1` or `+11` |
| Phone.NormalizeSpelling | internal/service/dno.go:51-59 | Round trip: every spelling of a ten-digit number not starting with 1, behind an optional `1` or `+1`, comes back as the ten digits, and normalising again changes nothing |
| Phone.IdempotentIff | internal/service/dno.go:56-57 | For every input, a second normalisation changes nothing exactly when the stripped input does not lead with two country codes |
| Phone.IdempotentOnValidIff | internal/service/dno.go:49-59 | For an accepted number, it is stable under normalisation exactly when it does not start with 1 |
| Phone.StartsWithOne | internal/service/dno.go:49-59 | Every ten-digit number starting with 1 is accepted behind a country code and then not found by its own ten digits |
| Phone.KeyPrefixIff | internal/service/dno.go:61-63 | The keys of a number are exactly those starting with the prefix its writers invalidate, and a key determines number and channel |
| TableRuns.ApplySafe | internal/db/db.go:211-224 | On any table each of the five writers keeps every row, its owner, its creator and its number type, and keeps ITG and TSS rows active where they are |
| TableRuns.RunKeeps | internal/service/dno.go:268-273 | Over all runs of the five writers from any table, the key set only grows and a row never changes hands |
| TableRuns.RunSafe | internal/service/features.go:44-50 | Over all runs, if every ITG and TSS row is active before, every row that is ITG or TSS afterwards is active |
| TableRuns.RunValid | internal/service/features.go:434-449 | Over all runs only ten-digit numbers are ever stored, although the sync copies the registry's |
| TableRuns.RunNeverPends | internal/service/dno.go:322-326 | Over all runs no row is pending that was not pending at the start |
| TableRuns.ChangesAreStamped | internal/service/features.go:44-50 | Any row a request creates or alters carries the instant of that request as its update time; every other row is untouched |
| Outcomes.AddOutcomeIs | internal/service/dno.go:250-276 | An add is refused for its first bad field and then changes nothing; otherwise a new row has the subscriber columns of the request, an existing one keeps all but status, reason and time, and no other row changes |
| Outcomes.RemoveOutcomeIs | internal/service/dno.go:313-336 | A remove makes each of the organisation's own subscriber rows that cover the channel inactive and stamped and otherwise leaves it and every other row as it was, or is refused for a bad channel or for want of such a row |
| Outcomes.IngestOutcomeIs | internal/service/features.go:31-54 | A traceback writes its threat, investigation and reason into one active ITG row, keeps the owner, and changes no other row |
| Outcomes.NpacOutcomeIs | internal/service/features.go:453-497 | A disconnected or unassigned number gets an active auto row on voice with that status as reason; a ported or assigned one gets its owner registered and its active auto rows made inactive; any other status changes nothing |
| TssSync.ApplyRegistry | internal/service/features.go:459-470 | The registry changes only on a ported or assigned event, which sets owner and status and keeps an existing entry's kind |
| TssSync.RunRegistry | internal/service/features.go:461-466 | Over all runs existing registry entries keep their kind and new ones are local |
| TssSync.OwnerAfterRun | internal/service/features.go:453-470 | After any run the registry shows the owner and status of the number's last assigning event |
| TableRuns.SwitchesOffIff | internal/service/dno.go:322-326 | A request turns an active row off exactly when it is its own organisation's remove of a subscriber row that covers the channel, or a number-in-service event on an auto row |
| TableRuns.OffNeedsCause | internal/service/features.go:488-494 | On any table, a row active before a run and not after it met such a request, at that request's own table |
| TableRuns.OneOrgCannotSwitchOff | internal/service/dno.go:313-336 | No sequence of adds and removes by one organisation deactivates a row of another organisation or of a non-subscriber dataset |
| TableRuns.AddThenHit | internal/service/dno.go:250-311 | After an accepted add, every lookup whose channel the row covers is a hit |
| TableRuns.AddThenRemoveIff | internal/service/dno.go:271-324 | After an accepted add the same organisation's remove succeeds exactly when the add made a new row or the organisation already had a row to remove |
| TableRuns.CannotTakeBack | internal/service/dno.go:271-324 | Two organisations add the same number: the second cannot remove it |
| TableRuns.MissAfterRemoveIff | internal/service/dno.go:313-336 | After a successful remove the lookup misses exactly when every active row it could find was a subscriber row of the removing organisation |
| TableRuns.RemoveMayStillHit | internal/service/dno.go:322-326 | A concrete table on which a successful remove leaves the number blocked by a traceback row |
| TssSync.SyncInAnyOrder | internal/service/features.go:437-443 | Executed row by row in any order, with a uniqueness check and a rollback at the first collision, the statement inserts a row for every selected number or changes nothing |
| TssSync.ApplyClass | internal/service/features.go:437-443 | Every request moves every number through four classes (unlisted, wanted, synced, claimed) as one small automaton says; claimed is final |
| TssSync.SyncFailsIff | internal/service/features.go:434-449 | The sync fails exactly when some listed toll-free number's text row belongs to another dataset, and a failure changes nothing |
| TssSync.SyncStuck | internal/service/features.go:437-443 | Once a sync has failed, every sync after any run of the five writers fails |
| TssSync.SyncBreaksIff | internal/service/features.go:44-48 | What turns a working sync into a failing one: exactly a traceback of a listed number's text row, or a subscriber add of that row before the first sync |
| TssSync.SyncFailsAfterRunIff | internal/service/features.go:434-449 | The sync fails after a run exactly when it failed before it or one such request was on the way, at its own table |
| TssSync.SyncBroken | internal/service/features.go:44-48 | A registered toll-free number, a successful sync, a traceback of its text row: the next sync fails |
| TssSync.NewlyQualifiesIff | internal/service/features.go:439-442 | A request makes a number eligible that was not exactly when a traceback takes over the text row an earlier sync wrote |
| TssSync.NewlyQualifiesCause | internal/service/features.go:439-442 | A number that becomes eligible over a run was synced and then traced on the way |
| TssSync.SyncAdds | internal/service/features.go:437-448 | A successful sync adds an active text row for each selected number and nothing else, and reports how many |
| TssSync.SyncOutcomeIs | internal/service/features.go:437-448 | The sync is refused exactly when a listed toll-free number's text row belongs to another dataset; otherwise every listed number has a text row and each new row has the columns the statement names |
| TssSync.SyncTwice | internal/service/features.go:434-449 | A second sync adds 0 rows and leaves the database unchanged |
| AutoSet.ApplyPhase | internal/service/features.go:453-497 | Every request on every database moves every row through three phases as one small automaton says |
| AutoSet.AutoSetAfterRun | internal/service/features.go:459-494 | On any database, seeded `both` rows included, the auto set after a run is decided by the last recognised event and by which traceback or subscriber writes of those rows follow it |
| AutoSet.NpacHistory | internal/service/features.go:459-494 | On any database, with no later add or traceback of the number itself, an active auto row exists exactly when the last recognised event was `disconnected` or `unassigned` |
| AutoSet.TracedRowOffIff | internal/service/features.go:475-494 | An active traceback row is off after a run exactly when a joining event took it over, a later leaving event found it still taken, and nothing joined, traced or added it since |
| AutoSet.TracebackUndone | internal/service/features.go:475-494 | Traced, disconnected, ported: the number is no longer blocked |
| TtlCache.TTLCache.Get | internal/cache/cache.go:32-41 | Answers the stored value up to and including the expiry instant, nothing after it |
| TtlCache.TTLCache.Set | internal/cache/cache.go:43-59 | Below capacity evicts nothing, at capacity a quarter of the capacity (at least one, or all there are) of arbitrary entries, then stores the value with its expiry |
| TtlCache.TTLCache.DeletePrefix | internal/cache/cache.go:67-75 | Leaves exactly the entries whose key does not start with the prefix |
| TtlCache.TTLCache.Sweep | internal/cache/cache.go:77-90 | Leaves exactly the entries that have not expired |
| TtlCache.RunWithinIdeal | internal/cache/cache.go:32-89 | After any sequence of operations with room for one entry, the cache is within capacity and a submap of the unbounded last-write map |
| TtlCache.SetKeepsOwnKey | internal/cache/cache.go:43-59 | Whatever a Set evicts, its own key answers with the new value until it expires |
| TtlCache.SweepIsInvisible | internal/cache/cache.go:77-90 | A sweep changes no answer of a present or later Get |
| TtlCache.UncrowdedIsIdeal | internal/cache/cache.go:32-89 | If no Set meets a full cache, every Get answers as the ideal map does |
| Lookup.AdmissibleFrame | internal/service/dno.go:99-134 | What a lookup may answer depends only on the rows of its own number |
| Lookup.AdmissibleIff | internal/service/dno.go:116-134 | A lookup's answer is one it may give exactly when it shows the number, dataset, channel, status "active" and update time of one active row that covers the channel, or is the empty answer and there is no such row |
| Lookup.TracebackIsAnswered | internal/service/features.go:44-50 | After an accepted traceback that leaves the only row to find, every lookup it covers reports an active ITG row written at that instant |
| Lookup.LogShowsIs | internal/service/dno.go:84-114 | The log has one entry for each answered lookup, in order, with its number, "hit" or "miss" as answered, and the channel asked for |
| Lookup.CoherentWrite | internal/service/dno.go:291-293 | Dropping one number's prefix after a write to that number restores agreement of the whole cache, including voice and text answers taken from a `both` row |
| Refinement.MoveKeepsCoherence | internal/service/dno.go:82-134 | Each step of the cached service keeps the cache in agreement and is a step of the service without a cache |
| Refinement.CachedRefinesUncached | internal/service/dno.go:65-352 | Exact coherence: over every single-process run from a coherent cache, each cached entry, live or expired, is an admissible answer for the current table, and each step is one of the cacheless service |
| Refinement.PathRefines | internal/service/dno.go:65-352 | Whatever moves its calls make (the methods' contracts name them), a coherent service gives the replies and the table a service without a cache may give |
| Refinement.PathAppend | internal/service/dno.go:65-352 | The moves of calls made one after another are moves of one run |
| Lookup.ResultOrderIsPermutation | internal/service/dno.go:152-185 | The order of bulk results lists each input once: first those answered while scanning, then the others, each part in input order |
| Services.Database.SelectOne | internal/service/dno.go:99-105 | Finds a row exactly when some active row of the number covers the channel, and then any such row |
| Services.DNOService.QueryNumber | internal/service/dno.go:65-135 | Rejects a bad number before a bad channel; otherwise it is one Answered move when there is a live cache entry and one Filled move when not; the answer, cached or not, shows one row that now blocks the number or says that none does, an organisation's lookup is logged with that result, the cache stays in agreement |
| Services.DNOService.BulkQuery | internal/service/dno.go:137-248 | Bulk refines single: one result for each input, first exactly the malformed inputs and those with a live cache entry, with those answers, then the others, each stored in the cache by its own Filled move; every hit, cached or not, shows one row that now blocks its number; equal numbers get equal answers from the database; `Hits` counts the DNO results, hits and misses add up, each answered lookup is logged once, the cache stays in agreement |
| Services.DNOService.ScanInputs | internal/service/dno.go:158-185 | Exactly the malformed inputs and those with a live cache entry are answered at once; the rest are queued in order, without repetition for the database |
| Services.DNOService.KeepLast | internal/service/dno.go:187-215 | Every scanned number keeps its last scanned row |
| Services.DNOService.AddNumber | internal/service/dno.go:250-311 | One Wrote move with the outcome of an add, column by column: drops exactly the number's cache entries when accepted and none when rejected; the cache agrees with the new table |
| Services.DNOService.RemoveNumber | internal/service/dno.go:313-354 | One Wrote move with the outcome of a remove, column by column: the organisation's subscriber rows that cover the channel become inactive, the number's cache entries go, or nothing changes at all; the cache agrees with the new table |
| Services.FeaturesService.IngestItgNumber | internal/service/features.go:31-71 | After an accepted traceback the row is an active ITG row with this threat and investigation, keeps its owner, is found by every lookup it covers, and no other row has changed; a rejected one names the first bad field |
| Services.FeaturesService.ProcessNpacPortingEvent | internal/service/features.go:453-497 | The three conditional statements together leave what the event specifies, for every status string |
| Services.FeaturesService.SyncTssRegistry | internal/service/features.go:434-449 | The row-by-row insertion with its rollback, in an arbitrary order, adds and counts all selected numbers or leaves the table as it was |
| Staleness.EntryOrigin | internal/service/dno.go:82-134 | Over every interleaving, every cache entry was put there by one lookup of its own process (its read, later its Set), and its number has not been invalidated there since |
| Staleness.BoundedStaleness | internal/service/dno.go:82-134 | Any answer served from a cache was an admissible table lookup at the read that filled it, and that read is no older than the TTL plus the gap between that read and its Set, although ITG, NPAC and TSS writers never invalidate |
| Staleness.CachesSettle | internal/service/dno.go:82-134 | Once a number has been left alone for the TTL plus the longest read-to-Set gap, every process serves it correctly |
| Staleness.EntryExactIff | internal/service/dno.go:291-293 | When every write to a number has been followed by this process's invalidation, a cached entry is right exactly when its answer was still right as Set stored it |
| Staleness.InvalidationIsExactIff | internal/service/dno.go:291-293 | Over every interleaving, a cache whose writes are followed by invalidation is exact exactly when no lookup stores an answer that such a write has outdated |
| Staleness.RaceFreeIsExact | internal/service/dno.go:82-134 | If no write to the number falls between the read and the Set of a lookup of it, following each write by an invalidation keeps the cache exact |
| Staleness.StaleDespiteInvalidation | internal/service/dno.go:291-293 | A concrete interleaving inside one process after whose invalidation a live cache entry contradicts the table |
| QueryLog.LogConservation | internal/querylog/writer.go:44-81 | Over every interleaving, the batches in take order followed by the buffer are the sequence of all logged entries |
| QueryLog.ExactlyOnePlace | internal/querylog/writer.go:73-113 | Every logged entry is in a place: the buffer, or a batch in flight or finished |
| QueryLog.PlacesApart | internal/querylog/writer.go:73-113 | Different places hold different logged entries, so that place is the only one |
| QueryLog.NoDoubleDelivery | internal/querylog/writer.go:86-112 | Over every interleaving, failed INSERTs and failed transactions included, the table holds no entry more often than it was logged |
| QueryLog.KeptIsStored | internal/querylog/writer.go:101-105 | A commit stores the entries at exactly the positions whose INSERT the driver lets through and the table's CHECKs accept, in order, repeated entries once for each position |
| QueryLog.KeptCounts | internal/querylog/writer.go:101-105 | When every INSERT passes, each acceptable entry is stored as often as it is in the batch |
| QueryLog.DeliveredExactly | internal/querylog/writer.go:73-112 | Over every interleaving with no lost batch and no failed INSERT, each acceptable entry is stored exactly as often as the finished batches hold it |
| QueryLog.AllDelivered | internal/querylog/writer.go:44-112 | And once the buffer is empty and nothing is in flight, exactly as often as it was logged |
| QueryLog.OnlyStorableIsStored | internal/db/db.go:228-235 | Over every interleaving no stored entry is a lookup on `both` |
| Lookup.LoggedIsStorableIff | internal/service/dno.go:73-92 | Of the lookups the service logs, the table accepts exactly those not on `both`, although that channel is valid |
| QueryLog.NoLostWakeUp | internal/querylog/writer.go:44-53 | Over every interleaving and for every threshold, a nonempty buffer that has reached the threshold has a Log call about to spawn a flush or a spawned flush that has yet to swap; the excess is bounded by their number |
| QueryLog.AsyncWriter.Log | internal/querylog/writer.go:44-53 | The locked section appends the entry and asks for a flush exactly when the buffer has reached the threshold |
| QueryLog.AsyncWriter.TakeBatch | internal/querylog/writer.go:73-81 | The locked section takes the whole buffer as a batch, or does nothing when it is empty |
| QueryLog.AsyncWriter.WriteBatch | internal/querylog/writer.go:101-112 | A committed flush appends, in order, the entries at the positions that the driver lets through and the table's CHECKs accept |
| Jobs.DrainsInOrder | internal/jobs/worker.go:82-94 | Consecutive ticks take pending jobs oldest first, each once, and k ticks empty a queue of k |
| Jobs.EveryRowCounted | internal/jobs/worker.go:127-133 | Accepted and rejected records add up to all records |
| Jobs.CheckpointsAre | internal/jobs/worker.go:135-139 | Progress is stored after exactly the records whose number is a multiple of 100, and after the last |
| Jobs.JobAddsAre | internal/jobs/worker.go:119-127 | Each record is added with its own number and reason and the job's type, channel, organisation and user |
| Jobs.RowErrorsAre | internal/jobs/worker.go:127-131 | The error list has one line for each refused record, in order, with its number counted from 1 and the first bad field |
| Jobs.FinishedShows | internal/jobs/worker.go:142-148 | A job that decodes ends completed, all records processed, with the numbers of accepted and refused records and that error list |
| Jobs.ProgressAdvances | internal/jobs/worker.go:135-139 | Every progress update satisfies the accounting rules and never moves a counter back |
| Jobs.RetryLimitIff | internal/jobs/worker.go:101-110 | A pending job is re-queued at most 3 times, over every sequence of rounds after its first attempt, exactly when its payload decodes |
| Jobs.RetriableIff | internal/jobs/worker.go:194-198 | A retry tick re-queues exactly a failed job with fewer than 3 errors that completed more than a minute ago, and changes nothing else |
| Jobs.RetriesWithoutEnd | internal/jobs/worker.go:186-198 | However many rounds of retry and job ticks, a failed job is re-queued in every round and ends exactly as failed as before |
| Jobs.NoPayloadInstance | internal/jobs/worker.go:101-103 | A row without a payload fails and is re-queued more than 3 times |
| Jobs.EnqueuedNeverFails | internal/jobs/worker.go:154-177 | Over every history of enqueued jobs, ticks, crashes and retries, no job ever fails and the retry tick changes nothing |
| Jobs.StuckProcessing | internal/jobs/worker.go:83-99 | A crashed job's row is never touched again by any later event |
| Jobs.Worker.ProcessPending | internal/jobs/worker.go:82-151 | One tick takes an oldest pending job, runs its adds in order on the table, and stores only states where success + error = processed, progress never decreases, completed is final with processed = total, and a failed job has all counters at zero |
| Jobs.Worker.ProcessRecords | internal/jobs/worker.go:113-151 | The record loop applies exactly the job's adds, stores progress after each hundredth record and the last, and finishes with the counts and error lines of those adds |
| Jobs.Worker.EnqueueBulkAdd | internal/jobs/worker.go:154-177 | A new job is pending with the payload, its size and zero counters |
| Jobs.Worker.RetryFailed | internal/jobs/worker.go:190-198 | Re-queues exactly the failed jobs under the limit that completed over a minute ago, keeping the accounting rules |
| Convergence.RunLeaves | internal/jobs/worker.go:119-140 | Closed form of a job's run: at every key the row is decided by the last accepted record for that key |
| Convergence.WorkersConverge | internal/jobs/worker.go:82-140 | However many workers run the same job to the end and however their adds interleave, the table is that of one run, update times aside |
| Convergence.CrashAndRerun | internal/jobs/worker.go:82-140 | A crash after any record followed by a full re-run, once the job has been reset, leaves the table of one run, update times aside |
| Convergence.CrashDuringRaceIff | internal/jobs/worker.go:82-140 | A worker that dies while another finishes is harmless in every interleaving exactly when the last reasons it wrote are the final ones |
| Convergence.JobCrashSafeIff | internal/jobs/worker.go:119-140 | A job is safe against a crash at every record beside another run of it, on every database and in every interleaving, exactly when it lists no number with two different reasons |
| Convergence.TwoReasonsDiverge | internal/jobs/worker.go:119-140 | A two-record job, one number with two reasons, whose first worker dies between them: some interleaving leaves another table |
| Placeholders.DecimalParses | internal/service/dno.go:193 | Parsing the decimal numeral of a number gives the number back |
| Placeholders.RewritePreservesIff | internal/db/db.go:157-167 | For every query without `?` and every argument list, the rewritten text binds by position to what the original binds by number exactly when its places take the arguments in order |
| Placeholders.BuiltPlace | internal/service/dno.go:386-397 | Appending a fresh place and its argument to any built query keeps `$1..$n` in order, each once, and adds that argument's value at that point |
| Placeholders.BuiltMeans | internal/db/db.go:162-167 | A built query means the same pieces on both engines |
| QueryBuilders.BuiltIn | internal/service/dno.go:190-203 | For every number list the IN query asks for those numbers in order and then the channel |
| QueryBuilders.BuildInQuery | internal/service/dno.go:190-203 | The loop that builds the list produces a query both engines bind to exactly that |
| QueryBuilders.BuildList | internal/service/dno.go:384-426 | For every subset of filters, the count and page queries carry each set filter with its own value, then LIMIT and OFFSET, on both engines |
| QueryReading.WhereSelectsIff | internal/service/dno.go:391-411 | Read as SQL, the WHERE clause that is built selects exactly the rows whose organisation, dataset, status, channel and number meet the set filters, for every subset of filters; the search value stands between two `%` |
| QueryReading.InQuerySays | internal/service/dno.go:199-203 | The text of the two IN queries: these numbers, this channel or `both`, active rows |
| Paging.ListNumbers | internal/service/dno.go:361-453 | Fails exactly on an invalid filter, with the first one's error; otherwise returns one page, the total and the page count of a list that holds exactly the rows meeting every set filter, column by column, newest first; its two queries, read as SQL, select those rows |
| QueryReading.SearchFinds | internal/service/dno.go:408-411 | A search text without wildcards, between two `%`, matches exactly the numbers containing it |
| Paging.PagesCoverList | internal/service/dno.go:420-451 | Pages 1 to TotalPages, concatenated, are the filtered list, each row once |
| Paging.LaterPageEmptyIff | internal/service/dno.go:420-423 | A later page is empty while its offset fits an `int`, and in general exactly when there are no rows or the wrapped offset is past the end |
| Paging.StablePagesIff | internal/service/dno.go:420-426 | Separate calls agree on the rows of every page, whatever order ties come in, exactly when no page ends between two rows of equal update time |
| Paging.TiedPages | internal/service/dno.go:420-426 | Two rows of equal update time, one to a page: two calls may show one of them twice |
| Paging.WrappedPage | internal/service/dno.go:420-423 | A page number whose offset wraps to zero serves the first page again |
| Paging.NegativeOffset | internal/service/dno.go:420-423 | Any page whose offset exceeds an `int` but not 64 bits has a negative offset and serves the first page |
| Tally.BumpCounts | internal/service/features.go:216-223 | `m[label]++` keeps the map equal to the number of positions carrying each label |
| Tally.SumIsMarked | internal/service/features.go:282-285 | The values of such a map add up to the number of positions with a label |
| Analyzer.LookupBatches | internal/service/features.go:236-276 | For any list of numbers, lookups in batches of 500 give the hit map of one lookup, each number with the details of one matching row; each query asks for exactly its batch |
| Analyzer.AnalyzeTraffic | internal/service/features.go:205-316 | `DNOHits` is the number of records whose own uncached lookup hits, misses are all others; the dataset and threat maps count the records by their hit row's columns; the spoofed list has at most 20 distinct hit numbers; each valid number is asked for once, in batches of 500 |
| Analyzer.HitsAreBlocked | internal/service/features.go:278-301 | `DNOHits` is the number of records whose own uncached lookup hits, and the misses are all others |
| Analyzer.DatasetsAddUp | internal/service/features.go:281 | The `ByDataset` values sum to `DNOHits` |
| Analyzer.DatasetsAre | internal/service/features.go:281 | `ByDataset` has exactly the datasets that occur, each with the number of records whose hit row has it |
| Analyzer.ThreatsAre | internal/service/features.go:282-284 | `ByThreat` has exactly the nonempty categories that occur, each with the number of records whose hit row carries it; together they are the records with a category |
| Analyzer.AnalysisAgreesWithBulk | internal/service/features.go:205-316 | On the same inputs and channel the analysis and a bulk query report the same total, hits and misses, whatever the cache held |
| Analyzer.SpoofedCountIff | internal/service/features.go:294 | A reported spoofed count is the number of that number's records exactly when there is one record |
| Analyzer.TwoRecordsCountFour | internal/service/features.go:294 | Two records of one blocked number are reported with a count of four |
| Analyzer.TopIsCompleteIff | internal/service/features.go:304-311 | The list holds every spoofed number exactly when there are at most 20 |
| Analyzer.AnyTwenty | internal/service/features.go:304-311 | With more than 20 spoofed numbers, for any two of them some outcome lists the one and omits the other, whatever their counts |
| Analyzer.TopIsMostFrequentIff | internal/service/features.go:304-311 | Every outcome lists the most frequent numbers exactly when there are at most 20 or all are equally frequent |
| Analyzer.MostFrequentOmitted | internal/service/features.go:304-311 | On records of 21 blocked numbers, one of them twice, some outcome omits a more frequent number |
| Analyzer.TracebackIsReported | internal/service/features.go:43-51 | A number whose only matching row a traceback has just written is reported under the ITG dataset with that traceback's threat category |
| Analyzer.TracebackIsCounted | internal/service/features.go:282-286 | Records of such a number alone are all counted under its threat, if it has one, and under ITG |
| Partitions.YearStart | internal/db/db.go:461-465 | The month calendar agrees with the closed Gregorian leap-year rule for every year |
| Partitions.FirstHalf | internal/db/db.go:461-465 | The lengths of January to June, for every year |
| Partitions.SecondHalf | internal/db/db.go:461-465 | The lengths of July to December |
| Partitions.AddMonthsNormalises | internal/db/db.go:462 | Adding months gives the one valid date that many days after the first of the target month: a day past its end overflows into the next month |
| Partitions.NameInjective | internal/db/db.go:463 | Different months get different partition names |
| Partitions.NameSays | internal/db/db.go:463 | The name is `query_log_`, the year, and the month in two digits |
| Partitions.LogTable.EnsureQueryLogPartitions | internal/db/db.go:455-481 | One run leaves the specified partitions, stops at a refused statement, and does nothing on SQLite |
| Partitions.PartitionsAreMonths | internal/db/db.go:460-474 | Over maintenance runs at any instants in any order, all partitions are whole calendar months under their own names, pairwise disjoint, and the month of every run is covered |
| Partitions.RunsSucceed | internal/db/db.go:467-478 | No statement of any maintenance run is ever refused as overlapping |
| Partitions.StoredIff | internal/db/db.go:455-481 | A log entry of a given day has a partition exactly when one of the runs so far made its month |
| Partitions.StoredAfterEarlyRun | internal/db/db.go:452-465 | A day can be stored once maintenance has run by day 28 of its month or of one of the two months before |
| Partitions.MonthsIff | internal/db/db.go:461-465 | Exactly which months one run makes sure of, for every date |
| Partitions.ThreeMonthsIff | internal/db/db.go:452-465 | One run covers exactly the current month and the next two when neither is shorter than the day of the month, as on days 1 to 28, and not otherwise |
| Partitions.FebruarySkipped | internal/db/db.go:462 | A first run late in January, on a day February lacks, leaves every day of February without a partition |
| Partitions.EnsureTwice | internal/db/db.go:452-454 | A second run on the same day changes nothing |

## Left out

- HTTP handlers, routing, gateway, CORS, middleware, metrics and the React client: plumbing over libraries.
- JWT, bcrypt, API keys, HMAC signatures and webhook delivery: library calls and network traffic.
- The SQL engine itself: connection pools, locks, migrations, transactions across statements. Each statement is one atomic
  change of a map, so UNIQUE(phone_number, channel) holds by construction.
- Row ids, `created_at` of number rows, `updated_at` of registry rows and audit rows: no modelled statement selects by
  them, except a job's creation time, which is modelled.
- The read-back of a row's id after AddNumber and its failure, and `rows.Err`, `Scan` and other driver failures: database
  calls succeed, except the TSS conflict and the query-log transaction, whose failures are modelled.
- JSON encoding of a job's payload: encoding then decoding is the identity, failure messages never decode, and a finished
  job's error list decodes to the empty payload.
- The texts of error messages; the model keeps which error it is.
- LIKE's folding of letter case, and line breaks inside SQL texts. That the engine executes a query as
  `QueryReading` and the lookup predicates read it is assumed.
- The analytics cache, which query-log writes do not invalidate, so there is nothing coherent to claim.
- Hit rates, ROI figures, the compliance report, seed data and configuration tables: floating point or fixed values.
- Query-log delivery at shutdown: Stop may run while requests still log, so nothing is claimed about the last entries.
- The 90-day clean-up of the query log, and StreamNumbers: one filter each.
- The two tickers' timing and the goroutine scheduler: the protocols hold for every interleaving of their steps.
- Aliasing of a cached response: the cache shares each response with its callers, and no modelled code changes one.
- Analyzer.AnalyzeTraffic: the table does not change between two batches of one call; with concurrent writers each batch
  is a lookup at its own moment.
- Services.DNOService.QueryNumber: the sequential service; its interleavings with other processes are in `Staleness`.
- Jobs.Worker.ProcessPending: the job accounting is that of one worker and no manual reset; several workers share the
  number table in `Convergence`, not the job rows. EnqueueBulkAdd gets a fresh id as a parameter.
- Refinement.CachedRefinesUncached: only the two writers that invalidate take part; a traceback, porting event or TSS sync in
  the same run is covered by `Staleness.BoundedStaleness` instead.
- Paging.ListNumbers: the table is fixed across pages; rows written between two calls may move between pages.
- Partitions.LogTable.EnsureQueryLogPartitions: only this function creates partitions, and an error other than an overlap
  or an existing name does not occur.
