# Scuffinger verification

A Dafny model of the parts of scuffinger where an index, a lock, a cache, a search or a
generated text must agree with something simpler, and proofs that they do. Objects whose
methods update their fields are classes (`Registry`, `KeySlice`, `Collector`, `ValKey`,
`GitHubService`, `Transport`, `Manager`), the slices compacted in place keep their backing
arrays, and each loop of the program is a loop here. Every such method is proved against a
function of its inputs or of the old state, and the theorems are about those functions:
over all inputs, all runs, or all interleavings.

GitHub, ValKey, PostgreSQL and the clock appear as arbitrary answers handed to the calls.

| module | what it models |
|---|---|
| `SeriesModel`, `SeriesRuns`, `Registry` | live gauge series and the five tracked slices that index them |
| `SeriesInterleaving`, `SeriesSolo` | the same, with every write, deletion, key move and append a step of its own |
| `CollectorLock` | pods sharing a key store with SETNX and a time to live |
| `CollectorModel`, `Collector`, `CollectorFacts` | the collection cycle over registry, counters and key store |
| `Rotation`, `GitHubService` | the credential pool and its search |
| `SqlText`, `SqlQuery`, `QueryBuilder`, `QueryMeaning` | the debug queries: text, tokens, statements, and their meaning in three-valued logic |
| `KeyScan`, `RedisInfo` | the cursor scan and the INFO parser |
| `DevicePoll`, `TokenCache` | the device-flow poller and the installation-token cache |
| `ServiceManager` | lifecycle and health of the services |
| `Wrappers`, `GoTime`, `Decimal`, `Strings`, `Spacing` | shared vocabulary |

## Where code and documentation disagree

- The documentation has a cycle reset the old series first and then record
  (internal/metrics/github_collector.go:255-256, docs/ARCHITECTURE.md:325-338). `collect` records
  first and resets last (internal/services/github_collector.go:137-162), so what a cycle records
  is gone when it ends. The documented order is proved to refresh the series
  (`ResetThenRecordIsFresh`), the written one to do so exactly if the cycle recorded nothing
  (`RefreshedOnlyIfNothingRecorded`), and over whole runs nothing tracked is live between cycles
  (`NothingIsLiveBetweenCycles`).
- `QueryRows` is documented to search the text columns and to bound the named date column
  (internal/server/debug.go:150-152, internal/server/openapi.yaml:511-533). A filter that cannot be
  applied is dropped or moved instead: a search of a table without text columns keeps every row, a
  bound in neither date format is ignored, and a bound on an unknown column is applied to the first
  time column (`InapplicableFilters`). A row is one of those meant exactly if every given filter can
  be applied and the clause keeps the row (`KeepsWhatIsMeant`), and the clause is right for every
  table content exactly if every given filter can be applied or the bounds are crossed
  (`FiltersAsMeantExactly`). Which types make a text or a time column is taken from the code.
- `ScanKeys` says that it preserves the -1 and -2 replies of TTL (internal/server/debug.go:406). It
  does for whole negative seconds only (`TtlIsCutTowardsZero`): replies of -1 ns and -2 ns are lost,
  both read as zero (`NoExpiryAndGoneReadAsZero`).
- An exchanged token that is empty is returned but never served from the cache, so every call
  exchanges again (`EmptyTokensAreNeverServed`).

## Model

| member | source | states |
|---|---|---|
| SeriesModel.FamilyOf | internal/metrics/github_collector.go:261-278 | each gauge vector is deleted through exactly one tracked slice, the run-status gauge through none |
| Registry.Registry.constructor | internal/metrics/github_collector.go:225-233 | a new registry has no series and five separate empty slices |
| Registry.KeySlice.Append | internal/metrics/github_collector.go:371 | appending adds the key at the end, in the same backing array exactly while there is room |
| Registry.Registry.DeleteSeries | internal/metrics/github_collector.go:261-264 | exactly the series of the key in the family's gauge vectors are deleted |
| Registry.Registry.Compact | internal/metrics/github_collector.go:294-303 | in-place compaction within one array ends as the order- and multiplicity-preserving filter, having deleted exactly the dropped keys' series |
| Registry.Registry.ResetTrackedWorkflowMetricsForRepos | internal/metrics/github_collector.go:286-350 | the five compactions together turn the state into ResetForRepos of it, within the same arrays |
| Registry.Registry.ResetTrackedWorkflowMetrics | internal/metrics/github_collector.go:255-284 | the full reset turns the state into ResetAll of it and keeps the arrays |
| Registry.Registry.RecordWorkflowRun | internal/metrics/github_collector.go:365-373 | new state: duration and status set, key appended |
| Registry.Registry.RecordWorkflowJob | internal/metrics/github_collector.go:396-407 | new state: status code, start time unless zero, duration, key appended |
| Registry.Registry.RecordWorkflowStep | internal/metrics/github_collector.go:409-417 | new state: start time and duration set, key appended |
| Registry.Registry.RecordWorkflowAnnotation | internal/metrics/github_collector.go:419-429 | new state: counter incremented, info gauge set, both keys appended |
| SeriesModel.ConclusionCodes | internal/metrics/github_collector.go:375-394 | the six known conclusions have the codes 0 to 5, and only they; everything else is -1 |
| SeriesModel.ResetForReposEffect | internal/metrics/github_collector.go:286-350 | per series: exactly the listed series of the given repositories disappear, every other value stays, each slice keeps its other keys in order |
| SeriesModel.KeepMultiplicity | internal/metrics/github_collector.go:294-303 | a compacted slice has every other repository's key as often as before and none of the dropped ones |
| SeriesModel.FullResetIsRepoReset | internal/metrics/github_collector.go:255-350 | the full reset equals the per-repository reset with all tracked repositories |
| SeriesRuns.RecordStore | internal/metrics/github_collector.go:365-429 | per series: what one Record call makes of its value |
| SeriesRuns.LastWriteWins | internal/metrics/github_collector.go:365-429 | over any sequence of Record calls a series has the value of its last writer, or its old one if there is none |
| SeriesRuns.AnnotationsAddUp | internal/metrics/github_collector.go:419-429 | an annotation counter grows by the number of annotations recorded under its labels |
| SeriesRuns.IndexAgreesInEveryRun | internal/metrics/github_collector.go:225-429 | in every sequential run the live run, step, job-status, job-duration and annotation series are exactly the tracked keys, job start times a subset, and each annotation counter is its key's multiplicity |
| SeriesRuns.FullResetEmpties | internal/metrics/github_collector.go:255-284 | after any run, a full reset leaves no tracked-family series and no key |
| SeriesRuns.ResetThenRecordIsFresh | internal/metrics/github_collector.go:255-429 | from any reachable state, reset then record gives on those repositories exactly the series of an empty registry, and leaves all others alone |
| SeriesRuns.RecordThenResetLeavesNothing | internal/metrics/github_collector.go:286-429 | the other order leaves no tracked-family series of those repositories |
| SeriesInterleaving.ViewAfterMove | internal/metrics/github_collector.go:294-303 | moving a kept key to the front never overwrites an unread key: what the slice answers for is unchanged |
| SeriesInterleaving.NoSeriesLeaks | internal/metrics/github_collector.go:289-429 | in every interleaving of recorders and resets each live tracked-family series has its key in the index or held by a recorder, and an annotation counter is at most its tracked multiplicity plus its increments in flight |
| SeriesInterleaving.WritesNeverWait | internal/metrics/github_collector.go:366-429 | in every interleaving a Record call begins and writes its gauges whoever holds the mutex, also in the middle of a reset, and a write changes its own series only |
| SeriesInterleaving.FreeMutexCanBeTaken | internal/metrics/github_collector.go:258-429 | a free mutex can be taken by every Record call that has made its writes and by every reset |
| SeriesInterleaving.HolderGoesOn | internal/metrics/github_collector.go:258-429 | whoever holds the mutex can always take its next step |
| SeriesInterleaving.AtRestEverySeriesIsTracked | internal/metrics/github_collector.go:289-429 | once nothing is under way, the slices list every live series and bound every annotation counter |
| SeriesSolo.RecordAlone | internal/metrics/github_collector.go:365-429 | the small steps of a Record call without interference add up to RecordOne |
| SeriesSolo.RepoResetAlone | internal/metrics/github_collector.go:289-350 | the small steps of a per-repository reset without interference add up to ResetForRepos |
| SeriesSolo.FullResetAlone | internal/metrics/github_collector.go:257-284 | the small steps of a full reset without interference add up to ResetAll |
| GoTime.SubIsNearest | internal/services/github_collector.go:270 | a difference of instants is exact within 64 bits, otherwise the nearest end, and has the right sign |
| GoTime.UnixIsSecond | internal/metrics/github_collector.go:400 | a Unix time stands for the second that begins with it |
| CollectorLock.CollectorDuration | internal/config/config.go:138-146 | the configured interval if that is positive, otherwise 300 seconds; so it is always positive |
| CollectorLock.PodsNeverWait | internal/services/github_collector.go:137-203 | a pod that is not collecting can try any repository at any later instant, whatever the others do, and one that is can finish |
| CollectorLock.LockIsGreedy | internal/services/github_collector.go:168-203 | what any number of pods acquire of one repository is the greedy filter of the instants at which they tried |
| CollectorLock.AcquisitionsAreSpaced | internal/services/github_collector.go:168-203 | two acquisitions of a repository are at least one TTL apart, so a window W holds at most floor(W/ttl)+1 |
| CollectorLock.NoTwoPodsCollectOneRepo | internal/services/github_collector.go:129-203 | if no collection outlives the TTL and SETNX answers, no two pods collect a repository at once, although nothing unlocks |
| CollectorLock.UnansweredAttemptIsBlind | internal/services/github_collector.go:187-190 | an unanswered attempt keeps exclusion exactly if no pod is collecting the repository |
| CollectorLock.UnreachableStoreLosesExclusion | internal/services/github_collector.go:187-190 | an instance: one failed SETNX lets two pods collect the same repository, for every positive TTL |
| CollectorLock.LockProgress | internal/services/github_collector.go:99-203 | if attempts are at most P apart, acquisitions are less than ttl+P apart and the latest attempt less than a TTL after the latest acquisition |
| CollectorLock.ZeroTtlLocksForEver | internal/services/github_collector.go:183-186 | with a zero TTL a repository is acquired at most once, ever |
| Collector.ValKey.SetNX | internal/services/github_collector.go:186 | the shared store changes and answers as SETNX does |
| Collector.Collector.constructor | internal/services/github_collector.go:41-56 | a new collector has no error and zero counters |
| Collector.Collector.Ping | internal/services/github_collector.go:83-86 | returns the error of the last cycle |
| Collector.Collector.ObserveGitHubCall | internal/metrics/github.go:58-65 | counts the call, and the error if it failed |
| Collector.Collector.TryLock | internal/services/github_collector.go:168-203 | without a key store, or if it does not answer: proceeds and counts nothing. Otherwise proceeds exactly if the repository's key is not alive, writes it with the pod's name and the collector interval, and counts a lock acquired or skipped |
| Collector.Collector.CollectAnnotations | internal/services/github_collector.go:363-390 | one observed request, and a record per annotation if it succeeded |
| Collector.Collector.CollectSteps | internal/services/github_collector.go:328-354 | one record per started step, in order |
| Collector.Collector.CollectJob | internal/services/github_collector.go:302-360 | the job's record, its steps, and its annotations if it failed and they are on |
| Collector.Collector.CollectRun | internal/services/github_collector.go:259-361 | the run's record if it lasted a positive time, the jobs request, and its jobs |
| Collector.Collector.CollectRepo | internal/services/github_collector.go:205-257 | a fold of RepoTrace into registry and counters; fails exactly with one of its first two requests |
| Collector.Collector.VisitRepo | internal/services/github_collector.go:138-156 | one repository's turn: parse, lock, collect, count the error |
| Collector.Collector.Collect | internal/services/github_collector.go:126-166 | one cycle takes registry, counters and last error to those of Collected, whatever other pods do to the key store in between |
| Collector.Collector.Start | internal/services/github_collector.go:97-124 | any number of cycles is the fold of Collected |
| CollectorModel.ParseIffJoined | internal/services/github_collector.go:392-399 | parsing and rejoining are inverse: a name parses into exactly the non-empty owner without a slash and the non-empty rest it is joined from |
| CollectorFacts.RecordedExactly | internal/services/github_collector.go:205-390 | recorded are exactly the runs of positive duration, all jobs, all started steps and, if on, the annotations of failed jobs, each with its conclusion (or its status while it has none) and its duration (0 while it has not completed); nothing if one of the first two requests fails |
| CollectorFacts.RecordsAreOfRepo | internal/services/github_collector.go:206-207 | every recorded repository label is the configured name |
| CollectorFacts.ErrorOfRepo | internal/services/github_collector.go:212-256 | the error is that of whichever of the first two requests failed |
| CollectorFacts.RunsInOrder | internal/services/github_collector.go:252-254 | runs are recorded in GitHub's order |
| CollectorFacts.JobsInOrder | internal/services/github_collector.go:302-360 | jobs are recorded in GitHub's order |
| CollectorFacts.StepsInOrder | internal/services/github_collector.go:329-354 | steps are recorded in GitHub's order |
| CollectorFacts.CallsOfRepo | internal/services/github_collector.go:210-377 | how often each endpoint is requested with which outcome: metadata once, runs once, jobs once per run, annotations once per listed failed job |
| CollectorFacts.ObservedCounts | internal/metrics/github.go:58-65 | call counters grow by the requests, error counters by the failed ones, nothing else changes |
| CollectorFacts.CallCountersOfRepo | internal/services/github_collector.go:205-390 | once the first two requests succeed the counters grow by 2 + runs + failed jobs with annotations on, and by the failed requests |
| CollectorFacts.VisitsAreRecords | internal/services/github_collector.go:134-157 | a cycle's visits are one sequence of records, and every repository with a record is in `collected` |
| CollectorFacts.CollectedExactly | internal/services/github_collector.go:132-150 | `collected` is exactly the configured repositories that parse and whose lock lets this pod proceed |
| CollectorFacts.WithoutLocksAllAreCollected | internal/services/github_collector.go:137-181 | without a key store every configured repository whose name parses is collected, and no lock is counted |
| CollectorFacts.LastErrorIsReported | internal/services/github_collector.go:83-166 | the reported error is that of the last failing visit; none exactly if every visit went well |
| CollectorFacts.CycleTicks | internal/services/github_collector.go:137-203 | per repository, the error, acquired and skipped counters grow by the number of such visits |
| CollectorFacts.CyclesAreCounted | internal/services/github_collector.go:164-165 | over any number of cycles the cycle counter grows by one each and the error kept is the last cycle's |
| CollectorFacts.CycleLeavesNothing | internal/services/github_collector.go:126-166 | a cycle leaves no tracked-family series of the repositories it collected, and all others as they were |
| CollectorFacts.RefreshedOnlyIfNothingRecorded | internal/services/github_collector.go:159-162 | the collected repositories show this cycle's data afterwards exactly if the cycle recorded nothing |
| CollectorFacts.NothingIsLiveBetweenCycles | internal/services/github_collector.go:97-166 | over any number of cycles, between two of them only run-status series are live and every slice is empty |
| CollectorFacts.TurnIsAttempt | internal/services/github_collector.go:144-203 | a pod's turn collects exactly if the corresponding attempt makes it busy among all pods, and leaves the same keys in the store |
| Rotation.RotateMeetsSpec | internal/services/github.go:229-286 | without interference the search switches to the first other credential at or above the threshold, having fetched exactly those up to it, and otherwise to the earliest maximum of the active one's last-known count and the successful fetches |
| Rotation.CheckKeepsPool | internal/services/github.go:114-191 | a self-test or ping keeps the pool's size and a valid active index |
| Rotation.ExhaustedPoolUsesItsBest | internal/services/github.go:114-191 | over any run without interference, a successful call that leaves the active credential below the threshold has found every fetched one below it and none above the active one |
| Rotation.QuietCall | internal/services/github.go:114-191 | over any run without interference: a failed call leaves the pool as it was; a successful one whose reply reaches the threshold replaces the active credential's limits, changes nothing else and fetches no other credential |
| Rotation.Exec | internal/services/github.go:114-286 | in every interleaving of the critical sections the active index and every remembered index stay valid and each search counts its fetches |
| Rotation.InterleavingsAreSound | internal/services/github.go:193-286 | so no rotation makes more than len-1 fetches |
| Rotation.LimitsAreLastRecorded | internal/services/github.go:114-286 | in every interleaving each credential's last-known limits are the last reply any call got for that credential |
| Rotation.CallsNeverWait | internal/services/github.go:114-286 | in every interleaving a new call can start and one under way goes on with its reply |
| Rotation.CheckAloneIsCheck | internal/services/github.go:114-286 | the critical sections of a call without interference add up to the whole call |
| GitHubService.CredentialLabelsDistinct | internal/services/github.go:54-104 | no two credentials share a label |
| GitHubService.LabelsExactly | internal/services/github.go:54-104 | exactly the non-empty tokens and the applications with an id have a label, made of kind and place |
| GitHubService.GitHubService.constructor | internal/services/github.go:42-45 | a new service has no entries |
| GitHubService.GitHubService.Connect | internal/services/github.go:49-112 | appends one entry per non-empty token and per application with an id, up to the first unusable key; fails with that key or with an empty pool; on a new service success gives a connected pool |
| GitHubService.GitHubService.Rotate | internal/services/github.go:229-286 | equals Rotation.Rotate, fetches the other credentials in cyclic order exactly up to the first good one, whether or not the fetches succeed, and keeps the gauges in step |
| GitHubService.GitHubService.SelfTest | internal/services/github.go:114-159 | succeeds exactly if both requests do; a failed call changes and fetches nothing; a reply at or above the threshold (100 by default) only replaces the active limits; a low one searches the others |
| GitHubService.GitHubService.Ping | internal/services/github.go:161-191 | the same for its one request |
| GitHubService.GitHubService.Client | internal/services/github.go:195-201 | the active credential |
| SqlText.QuoteRoundTrip | internal/server/debug.go:526-530 | for every name and every rest that does not start with a double quote, reading the quoted name back gives exactly the name and the rest |
| SqlText.LexSpell | internal/server/debug.go:221-305 | every separated text is read back as the tokens it was put together from |
| SqlQuery.CountParses | internal/server/debug.go:296 | the count query's tokens parse as the count statement with exactly these conditions |
| SqlQuery.DataParses | internal/server/debug.go:304-305 | the data query's tokens parse as the data statement with exactly these conditions and page |
| Decimal.AtoiRoundTrip | internal/server/debug.go:533-537 | parsing undoes printing for 64-bit numbers and rejects all others |
| Decimal.ClampInt | internal/server/debug.go:532-542 | the result lies between the bounds |
| Decimal.ClampPrinted | internal/server/debug.go:532-542 | a printed number is moved to the nearer bound, one beyond 64 bits to the lower |
| Decimal.OnlyNumeralsParse | internal/server/debug.go:533-537 | anything but digits after at most one sign becomes the lower bound |
| QueryBuilder.PageOf | internal/server/debug.go:165-172 | limit between 1 and 500, offset at most 1000000 |
| QueryBuilder.Classify | internal/server/debug.go:206-217 | text and time columns in table order |
| QueryBuilder.FindTarget | internal/server/debug.go:238-251 | the requested time column if there is one, else the first |
| QueryBuilder.LikeCondition | internal/server/debug.go:227-233 | the search condition is the spelling of one disjunction over all text columns sharing a placeholder |
| QueryBuilder.BuildWhere | internal/server/debug.go:223-282 | text and arguments of the WHERE clause for the request |
| QueryBuilder.FindSort | internal/server/debug.go:284-293 | the requested column, quoted, or the first column by position |
| QueryBuilder.TextsAreUnderstood | internal/server/debug.go:219-305 | whatever names, conditions and page they are made from, both texts are lexed and parsed as statements with exactly those |
| QueryBuilder.BuildQueries | internal/server/debug.go:201-305 | no query for a table without columns; otherwise both texts are understood as the statements the request asks for |
| QueryMeaning.KeepsIfAllAccept | internal/server/debug.go:279-282 | in three-valued logic the clause never faults and keeps a row exactly if every condition accepts it |
| QueryMeaning.TargetIsDateColumn | internal/server/debug.go:238-251 | the builder's target is the documented date column whenever there is one |
| QueryMeaning.PlanKeeps | internal/server/debug.go:219-282 | exactly which rows the clause keeps for any request, with the builder's own fallbacks |
| QueryMeaning.KeepsWhatIsMeant | internal/server/debug.go:150-282 | for every request, columns and row the clause type-checks, and the row is one the documented filters mean exactly if all given filters can be applied and the clause keeps it |
| QueryMeaning.FiltersAsMeantExactly | internal/server/debug.go:150-282 | the clause is right for every table content exactly if all given filters can be applied or the bounds are crossed |
| QueryMeaning.InapplicableFilters | internal/server/debug.go:228-277 | failing inputs: a search without text columns and an unparsable bound keep every row, a bound on an unknown column applies to the first time column; none of these rows is meant |
| QueryMeaning.EndDateKeeps | internal/server/debug.go:265-276 | with an end date alone, exactly the rows up to an RFC 3339 instant, or before the end of a plain date's 24 hours |
| QueryMeaning.StartDateKeeps | internal/server/debug.go:254-264 | with a start date alone, exactly the rows from that instant on |
| QueryMeaning.SearchKeeps | internal/server/debug.go:227-236 | with a search alone, exactly the rows in which a column of a text type matches the text between two wildcards |
| QueryMeaning.ColumnsByType | internal/server/debug.go:206-217 | text columns are exactly those of a character, text or JSON type, time columns the others of a timestamp or date type |
| QueryMeaning.ColumnsInOrder | internal/server/debug.go:206-217 | both lists keep the order of the table |
| QueryMeaning.FirstFoldIsFirst | internal/server/debug.go:240-248 | the named column is the first equal to the name under case folding |
| QueryMeaning.SortByIsFirst | internal/server/debug.go:284-293 | the sort key is the first column equal to the requested one, else the first by position |
| QueryMeaning.PageByParameter | internal/server/debug.go:165-172 | limit, offset, direction and sort key each come from their own parameter |
| QueryMeaning.PlaceholdersMatchArguments | internal/server/debug.go:223-305 | the placeholders among the tokens of both texts are exactly $1 to $n for n arguments |
| KeyScan.ScanKeys | internal/server/debug.go:365-420 | the first `limit` matches of the concatenated batches, wherever they are cut; fewer mean cursor zero and nothing dropped; the cursor is that of the last batch needed |
| KeyScan.ScanBatch | internal/server/debug.go:378-414 | one batch adds its matches up to the limit |
| KeyScan.ListedExactly | internal/server/debug.go:383-413 | a key is listed, with its own type and TTL, exactly if its name has the text in it, TYPE and TTL answer, and the type is the requested one |
| KeyScan.MatchesAreListed | internal/server/debug.go:378-414 | the entries of a batch are exactly those of its listed keys |
| KeyScan.TtlIsCutTowardsZero | internal/server/debug.go:404-407 | the exact range of TTL values reported as n seconds, for positive, zero and negative n |
| KeyScan.NoExpiryAndGoneReadAsZero | internal/server/debug.go:404-407 | the replies -1 ns and -2 ns are reported as zero |
| RedisInfo.ParseRedisInfo | internal/server/debug.go:544-569 | the loop is the line-by-line fold |
| RedisInfo.ParsePrinted | internal/server/debug.go:544-569 | for every printed reply a section is present exactly if mentioned and each key has its last value, repeated sections merging |
| RedisInfo.ParseUndoesPrint | internal/server/debug.go:544-569 | parsing gives back the map that the lines list, in any order, with any repetition, with any white space around the lines (a carriage return, say) and with other lines in between |
| RedisInfo.EveryMapIsListed | internal/server/debug.go:544-569 | every map of lower-case section names to well-formed pairs has lines that list it, so parsing gives it back |
| DevicePoll.PollForToken | internal/auth/auth.go:78-115 | every sleep is the one due, every request was before the deadline, and the outcome is the last answer's or expiry, a grant being exactly a token answer |
| DevicePoll.CheckIsLate | internal/auth/auth.go:84-104 | n requests with s slow_downs take at least B n + 5 s (s - 1) / 2 seconds |
| DevicePoll.RequestsAreBounded | internal/auth/auth.go:78-115 | a request after n requests and s slow_downs waits B + 5 s and is only made if B n + 5 s (s - 1) / 2 < expiresIn; at most ceil(expiresIn / B) requests |
| TokenCache.Transport.constructor | internal/services/ghauth.go:33-40 | a new transport has no token |
| TokenCache.Transport.InstallationToken | internal/services/ghauth.go:53-76 | serves the held token or exchanges; failures change nothing; success returns the token held afterwards |
| TokenCache.CacheIsLatestExchange | internal/services/ghauth.go:53-76 | in every run the cache holds the most recently exchanged token |
| TokenCache.CachedAnswersAreValid | internal/services/ghauth.go:58-61 | an answer is served from the cache exactly if the latest exchanged token is not empty and valid for more than a minute |
| TokenCache.ExchangesAreSpaced | internal/services/ghauth.go:53-76 | tokens that live L from their call are exchanged at least L - 60 s apart |
| TokenCache.ExchangesInWindow | internal/services/ghauth.go:53-76 | a window W holds at most floor(W / (L - 60 s)) + 1 exchanges |
| TokenCache.EmptyTokensAreNeverServed | internal/services/ghauth.go:58-75 | with empty tokens every call exchanges |
| ServiceManager.Manager.constructor | internal/services/service.go:46-57 | every service starts unhealthy and unchecked |
| ServiceManager.Manager.AddService | internal/services/service.go:59-66 | the service is appended, unhealthy and unchecked |
| ServiceManager.Manager.ConnectAll | internal/services/service.go:68-80 | connects in order up to the first failure, which it reports |
| ServiceManager.Manager.RunSelfTests | internal/services/service.go:82-107 | reports each service up to and including the first failure; succeeds exactly if all do |
| ServiceManager.Manager.CheckHealth | internal/services/service.go:129-162 | statuses, gauges, counters and the overall gauge after one ping of every service |
| ServiceManager.Manager.IsHealthy | internal/services/service.go:164-177 | at least one status and all of them healthy |
| ServiceManager.Manager.Statuses | internal/services/service.go:179-188 | a snapshot of each status's health |
| ServiceManager.Manager.CloseAll | internal/services/service.go:200-217 | closes every service exactly once and reports the names of exactly those that fail |
| ServiceManager.StatusesShowLatest | internal/services/service.go:46-162 | in every run in which all names are distinct each status is that service's own latest outcome with its time, and its counters are its pings and failures |
| ServiceManager.HealthyMeansAllLatestSucceeded | internal/services/service.go:46-177 | the statuses' domain is the registered names, and the manager is healthy exactly if there is a service and all latest outcomes are successes |
| ServiceManager.GaugesMatchAfterCheck | internal/services/service.go:129-162 | after a health check every gauge shows what the statuses say |
| ServiceManager.SharedNameHidesFailure | internal/services/service.go:129-162 | in every state with two services under one name there is a health check that one of them fails and after which the manager is healthy |
| ServiceManager.HealthReflectsExactlyIfDistinct | internal/services/service.go:14-177 | whatever happens to a set of services, health reflects each one's latest outcome exactly if their names are distinct, as the interface requires of Name |

## Left out

- HTTP handlers and routing, command line, configuration loading, JSON, GitHub, PostgreSQL and ValKey clients, JWT signing and key parsing: they appear as answers that may fail.
- Upserts of runs and jobs to PostgreSQL, logging, the latency histogram and the repository gauges of `SetRepoGauges`: written and never read back.
- `GitHubCollectorService.SelfTest`, `ServiceByName`, `Organization`, `ActiveLabel`, `CredentialCount`: a single request or a single lookup each.
- Concurrent use of one collector or one manager: their methods run one after the other here; `SeriesInterleaving`, `CollectorLock` and `Rotation.Exec` cover what does overlap.
- Go's data race between a service's rate-limit gauge and other calls' updates: `Rotation.Exec` interleaves the critical sections only.
- Lossless resumption from the cursor of `ScanKeys`: the code does not promise it, since the rest of the last batch is skipped.
- Gauge values are integers; seconds as floating-point numbers and the rounding they bring are not modelled.
- ILIKE, case folding, upper and lower case, and the two date formats are arbitrary functions; wildcards inside the search text are whatever ILIKE makes of them.
- SQL beyond what the two queries use; PostgreSQL's maximum identifier length; a NUL character in a name.
- Registry.KeySlice.Append: the new capacity after a reallocation is one possible choice, Go's growth factor is not modelled.
- CollectorLock.NoTwoPodsCollectOneRepo: one clock for all pods and the key store; clock drift is not modelled.
- Collector.Collector.Collect: within one repository's turn GitHub's answer depends on the request only.
- Collector.Collector.Start: the ticker is a finite sequence of ticks; stopping is the end of that sequence.
- GitHubService.GitHubService.Connect: a credential's client is represented by its label.
- ServiceManager.Manager.CheckHealth: one clock reading per pass stands for the reading at each service.
- DevicePoll.PollForToken: the conversion of very large intervals to 64-bit nanoseconds, which wraps around, is not modelled.
- TokenCache.Transport.InstallationToken: one clock reading per call; the exchange takes no time.
