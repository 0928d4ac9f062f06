# Keel, modelled and proved in Dafny

Keel is a gateway in front of language-model providers. This project models the parts of it that decide
something about a provider or account for traffic, and proves what those parts promise:

- **The health window** (`Geometry`, `Keys`, `Taxonomy`, `Redis`, `WindowLog`, `WindowReads`, `TornReads`,
  `HealthStore`, `HealthMerge`, `HealthWindow`, `HealthRuns`, `TornRuns`). Any number of processes file attempts into
  fixed-width buckets through one transaction each; readers merge a window of buckets through a pipeline that is
  not atomic; keys expire; wall clocks step. The store is a keyspace with deadlines. Beside it stands a plain log of
  committed attempts, and every main result says how the bucketed index relates to that log: over every run, for
  reads torn by traffic, for clocks that step, at both edges of a bucket, under the sample cap.
- **Percentiles** (`Percentiles`): the gateway's nearest rank as an order statistic, and exactly where the load
  driver's version of it differs.
- **Accounting** (`Labels`, `Metrics`, `Gateway`, `GatewayRuns`, `Accounting`): label capping as a function of the whole
  stream of values, the series tables, one request through executor and ingress, and whole runs of overlapping requests
  whose records are a run of the shared store: what the series, the commits and the drops agree on at every instant.
- **The mock provider** (`MockProvider`, `MockDraws`): three random streams, live retuning, a two-run non-interference theorem
  for overlapping calls, which draw decides which call over any history, and when a reseed replays a scenario.
- **The request boundary** (`TextForms`, `Envelope`, `ProblemLists`, `Channels`) and **startup** (`Startup`,
  `Reachability`): a declarative acceptance condition, the exact problem list with nothing missing, invented or
  repeated, two input channels that make the same request, and why no guard on the request path can fire.
- **Exception classification** (`Normalize`): first match over an arbitrary single-inheritance tree, then a gated
  refinement.
- **The load driver** (`LoadDriver`): the absolute firing schedule under arbitrary scheduling delays.

Code that updates things in place is a class or a method with loops, proved against a function of its inputs or of
the old state; the promises are then lemmas about that function. `Outcome`, `Attempt`, `Commit` and the like are
values. `Common` holds options, results and sums. Run `dafny verify dfyconfig.toml` to check everything.

## Where the code and its documentation disagree

The model follows the code. Each of these is proved, as an exact condition where there is one.

- **Count and sample "land together or not at all"** (`keel/health/latency.py:98-101`). A transaction runs its
  remaining commands after an error reply, so with text in the count field the sample lands and the count does not.
  `HealthWindow.CountAndSampleTogetherIff`: together if and only if that field holds no text
  (`HealthWindow.TextSplitsThePair` is a failing store).
- **"Both must describe the same instant"** (`keel/health/window.py:287-295`). One round trip is not one instant: each
  HGETALL and its LRANGE are answered separately. If nothing lands, the samples equal the capped totals if and only if no
  covered bucket's deadline passes between its own two commands (`TornReads.TornSampleCount`); when one does, a snapshot
  can report an attempt and no sample (`TornReads.LapseLosesSamples`).
- **12 x 200 samples as the memory ceiling** (`keel/health/latency.py:72-75`). That is what one snapshot merges. With
  a 2 x window TTL, up to 2 x 12 + 1 buckets per provider are live (`WindowReads.LiveBucketsBounded`), and that many
  can be (`WindowReads.LiveBoundIsReached`).
- **Orphaned buckets and clock steps** (`docs/adr/0001-the-injected-clock-reads-wall-clock-time-not-monotonic-time.md:46-49`).
  A backward step of at most one whole window loses nothing; every larger tolerance fails
  (`WindowReads.ToleratedStepIsOneWindow`).
- **Reads that never raise** (`keel/health/window.py:251-252`). Merging raises exactly when the stored `ok` counts sum
  to a negative number, since that field of the result is validated to be at least zero (`HealthMerge.Merge`,
  `HealthMerge.NegativeOkExists`). Data the
  gateway wrote never does that (`HealthWindow.HealthTracker.Read`).
- **"Pass/fail is a function of the seed and the error rate alone"** (`keel/providers/mock.py:121-122`). True per waking
  order: the k-th call to wake takes the k-th draw (`MockProvider.KthToWake`). With two calls in flight, which of them
  fails depends on which wakes first (`MockProvider.WakingOrderDecides`); two runs agree call by call exactly under the
  condition of `MockProvider.SameVerdictsIff`.
- **"Replaying the same scenario twice"** by reseeding (`keel/providers/mock.py:161-168`) replays it if and only if no call
  asleep at the reseed wakes before a call of the scenario and takes a draw that decides it
  (`MockProvider.ReplayIsFaithfulIff`, `MockProvider.StragglerTakesTheDraw`).
- **A rejected chaos request** may leave earlier fields retuned, because fields are assigned one by one
  (`MockProvider.ChaosOutcome` says exactly when it leaves no trace, `MockProvider.RefusalKeepsTheRate` is one that does not).
- **The load driver's percentile "matches"** (`scripts/loadgen.py:82`). It reads the next sample up exactly when
  fraction x n is an odd integer short of n, because Python rounds halves to even
  (`Percentiles.DriverMatchesGatewayIff`).
- **64 label values** become at most 65 labels: the admitted values and the overflow label
  (`Labels.LabelsBounded`). A tenant literally named `other` shares the overflow series (`Labels.CappingIsLossless`).

## Model

| member | source | states |
|---|---|---|
| `Taxonomy.FieldsDistinct` | keel/health/window.py:102-116 | no two outcomes count into the same hash field |
| `Taxonomy.FieldTableInverts` | keel/health/window.py:113-116 | the inverse table maps exactly the fields the error classes write, and `ok` to none |
| `Geometry.BucketAtLeast` | keel/health/window.py:347-357 | the index is the floor: bucket k or later if and only if the reading is at or after k bucket widths, negative readings included |
| `Geometry.SpanIsWholeBuckets` | keel/health/window.py:192-197 | under the startup check the window is exactly its bucket count of whole buckets, the TTL twice that |
| `Geometry.CoveredIsYounger` | keel/health/window.py:337-345 | nothing the window still covers is as old as the window: eviction is never late |
| `Geometry.YoungIsCovered` | keel/health/window.py:337-345 | everything at least one bucket short of the window's age is covered: eviction is at most one bucket early |
| `Geometry.EarlyBoundNeedsWholeBuckets` | keel/config.py:162-174 | the one-bucket bound holds for a positive geometry whose bucket fits the window if and only if the bucket width divides the window |
| `Keys.BucketKeyInjective` | keel/health/window.py:334-335 | a count key, and likewise a sample key, names one provider and one bucket, whatever colons the provider's name holds |
| `Keys.KindsDisjoint` | keel/health/latency.py:78-85 | a count key is never a sample key |
| `Keys.KeyShapes` | keel/health/window.py:334-335 | the two keys of a bucket as text: prefix, provider, and the index in decimal |
| `Keys.DigitsDenote` | keel/health/window.py:334-335 | the decimal text of an index denotes it, without leading zeros |
| `Redis.Pipeline.Stage` | keel/health/window.py:223-235 | commands queue in staging order |
| `WindowLog.RecordEffect` | keel/health/window.py:221-235 | the five staged commands, run as one transaction, bump one field by one, push one sample under the cap, give both keys the same deadline and touch nothing else; with text in the field only the bump is lost |
| `WindowLog.LandKeepsMatch` | keel/health/window.py:199-235 | one transaction extends the log by one commit and leaves every other bucket of every provider as it was |
| `WindowLog.AdvanceKeepsMatch` | keel/health/window.py:42-45 | the passage of time never breaks the correspondence between store and log |
| `WindowLog.EvictKeepsMatch` | keel/health/window.py:42-45 | reclaiming an expired key changes nothing a reader can see |
| `WindowLog.ReadsVisible` | keel/health/window.py:269-272 | what HGETALL and LRANGE return for a bucket is what its unexpired commits left there, and nothing else |
| `WindowLog.KeysDieTogether` | keel/health/window.py:222-235 | a bucket's count key reads empty exactly when its sample key does |
| `WindowLog.HashCounts` | keel/health/window.py:372-413 | recording any attempts and reading the hash back gives the exact number of each outcome |
| `WindowLog.ListIsNewest` | keel/health/latency.py:108-113 | after any commits the list is the last min(200, n) latencies, newest first |
| `WindowLog.VisibleIsSuffix` | keel/health/window.py:193-197 | expiry only takes the oldest commits of a bucket, and takes none exactly when no silence exceeded the TTL |
| `WindowLog.VisibleCounts` | keel/health/window.py:193-197 | expiry never adds to a count |
| `WindowLog.BrokenLosesOne` | keel/health/window.py:193-197 | a silence longer than the TTL makes some outcome undercounted |
| `WindowReads.RangeIsSumOfBuckets` | keel/health/window.py:372-394 | summing bucket by bucket counts every in-range commit once and nothing else |
| `WindowReads.ReadExactIff` | keel/health/window.py:251-282 | a read with no traffic never exceeds the exact histogram, and equals it if and only if no covered bucket outlived its TTL, with no assumption on clocks or writers |
| `WindowReads.InRangeNeverExpires` | keel/health/window.py:191-197 | a covered bucket has lost nothing while the reader's clock is at most one window behind |
| `WindowReads.ToleratedStepIsOneWindow` | docs/adr/0001-the-injected-clock-reads-wall-clock-time-not-monotonic-time.md:44-49 | a backward step is absorbed for every log if and only if it is at most one whole window |
| `WindowReads.BucketedCountSandwich` | keel/health/window.py:22-31 | for every log and time, exact count of ages up to window - bucket <= bucketed count <= exact count of ages below the window |
| `WindowReads.LiveBucketsBounded` | keel/health/latency.py:67-75 | under a steady clock only 2 x bucket count + 1 indices of a provider can be live, each with a capped list |
| `WindowReads.LiveBoundIsReached` | keel/health/latency.py:67-75 | that many live buckets really occur |
| `TornReads.UnbrokenEarlier` | keel/health/window.py:265-272 | a bucket that has lost nothing by a later command had lost nothing at an earlier one |
| `TornReads.NeverOvercounts` | keel/health/window.py:251-282 | no read, however torn and whatever expired, reports an attempt that is not in the log |
| `TornReads.TornCounts` | keel/health/window.py:265-272 | for any clocks and any expiry, each count of a torn read is at most what is committed by its last command and at most a whole read at the first moment plus what landed since; it lies between whole reads at the first and last moment unless a covered bucket's deadline passes on the way to or from its own command |
| `TornReads.InstantIsExact` | keel/health/window.py:265-272 | a whole read at one moment never exceeds the exact histogram, and equals it where no covered bucket has lost anything |
| `TornReads.TornCountsExact` | keel/health/window.py:265-272 | where no covered bucket has lost anything by the last command, torn counts lie between the exact counts at the first and at the last |
| `TornReads.RangeInStep` | keel/health/window.py:191-197 | for a reader at most one window behind at its last command, no covered bucket has lost anything |
| `TornReads.HashTotalIsLength` | keel/health/snapshot.py:115-123 | the seven classes and `ok` of a bucket add up to its attempts |
| `TornReads.TornSampleCount` | keel/health/window.py:299-324 | for any clocks and any expiry, a torn snapshot has at most as many samples as its total plus the records that landed meanwhile; at least the capped totals it reports unless a covered bucket's deadline passes between its two commands; and when nothing landed, exactly those if and only if none passes |
| `TornReads.LapseLosesSamples` | keel/health/window.py:287-295 | a concrete snapshot across a deadline: one attempt, no sample |
| `Percentiles.CountsIgnoreOrder` | keel/health/snapshot.py:162-165 | the order statistic's counts depend on the samples only as a multiset |
| `Percentiles.NearestRankUnique` | keel/health/latency.py:151-178 | at most one value is the nearest-rank statistic |
| `Percentiles.PercentileIsNearestRank` | keel/health/latency.py:151-178 | for p in (0, 100] the result is v if and only if v is a sample, at least ceil(p n / 100) samples do not exceed it and fewer are below it; unknown exactly for no samples |
| `Percentiles.PercentileIgnoresOrder` | keel/health/snapshot.py:153-174 | bucket and sample order do not change a percentile |
| `Percentiles.PercentileMonotone` | keel/health/snapshot.py:170-173 | a higher percentile is never lower |
| `Percentiles.PercentileFollowsSamples` | keel/health/latency.py:151-178 | if no sample got faster no percentile got lower |
| `Percentiles.DriverRankIs` | scripts/loadgen.py:81-92 | the driver's rank is ceil(fraction n), one more exactly when fraction n is an odd integer |
| `Percentiles.DriverMatchesGatewayIff` | scripts/loadgen.py:81-92 | after clamping, the two read the same position unless fraction n is an odd integer short of n, and then the driver reads the next |
| `Percentiles.DriverDiffersAtTheMedianOfTen` | scripts/loadgen.py:81-92 | a concrete disagreement: the median of ten |
| `HealthStore.NextConsistent` | keel/health/window.py:199-235 | a landing record, time passing and reclamation each keep the store the index of its log |
| `HealthStore.LandingReadsBack` | keel/health/window.py:199-235 | a landing record reads back as one more attempt under its outcome and no other, and as the newest sample ahead of the others, 200 at most |
| `HealthStore.RunConsistent` | keel/health/window.py:199-282 | so does any run of them, and the log only grows |
| `HealthStore.Store.Execute` | keel/health/window.py:223-235 | a transaction runs every staged command in order with nothing in between |
| `HealthStore.Store.Meanwhile` | keel/health/window.py:265-272 | what happens at the server between two commands of a reader |
| `HealthMerge.MergeBucket` | keel/health/window.py:377-392 | visiting one bucket's fields in any order adds each outcome's stored count once |
| `HealthMerge.Merge` | keel/health/window.py:372-394 | each outcome's count is its field summed over the buckets, all seven classes are present, and construction fails if and only if the `ok` sum is negative |
| `HealthMerge.NegativeOkExists` | keel/health/window.py:130-133 | a concrete stored hash with a negative `ok` sum |
| `HealthMerge.MergedConcat` | keel/health/window.py:372-394 | merging concatenated bucket lists is the pointwise sum |
| `HealthMerge.MergedIgnoresOrder` | keel/health/window.py:372-394 | the order of buckets is irrelevant |
| `HealthMerge.ForeignDataCountsZero` | keel/health/window.py:383-413 | an unknown field or a value that is not an integer changes no count |
| `HealthMerge.MergedTotalIsSum` | keel/health/snapshot.py:115-123 | the total of the merged counts is the sum of the buckets' totals |
| `HealthMerge.AllUsable` | keel/health/latency.py:116-148 | a list whose entries are all non-negative numbers is read back whole and in order |
| `HealthMerge.ParseSamples` | keel/health/latency.py:116-148 | the flattened samples are the usable entries of every list, in order, and no others |
| `HealthMerge.UsableIsFilter` | keel/health/latency.py:116-148 | reading samples is a filter: a number not below zero is kept as it is, anything else is skipped, order is kept |
| `HealthMerge.UsableListByList` | keel/health/latency.py:116-148 | ... list after list |
| `HealthMerge.SnapshotPercentiles` | keel/health/snapshot.py:153-174 | p50 <= p95 <= p99 are the nearest-rank statistics of the samples, all unknown together and only without samples |
| `HealthMerge.RatesAreFractions` | keel/health/snapshot.py:125-151 | the success rate is the share of successes among all attempts and the error rate that of the seven classes, written as products with the sum over all outcomes; unknown exactly without attempts, else fractions summing to one; success is 0 only without successes, 1 only without errors |
| `HealthWindow.StageRecord` | keel/health/latency.py:88-113 | push, trim and expire are appended to the pipeline someone else opened, in that order |
| `HealthWindow.CountAndSampleTogetherIff` | keel/health/latency.py:98-101 | count and sample land together if and only if the count field holds no foreign text; the sample always lands |
| `HealthWindow.TextSplitsThePair` | keel/health/latency.py:98-101 | a concrete store on which they do not |
| `HealthWindow.HealthTracker.constructor` | keel/health/window.py:168-197 | a tracker starts with no drop reported |
| `HealthWindow.HealthTracker.Record` | keel/health/window.py:199-249 | the attempt lands in the bucket of the clock reading or the store is untouched; a drop is reported exactly when the reply was not heard as a success |
| `HealthWindow.HealthTracker.FetchHashes` | keel/health/window.py:265-272 | each HGETALL is answered from the log as it stood at its own moment |
| `HealthWindow.HealthTracker.FetchLists` | keel/health/window.py:306-308 | each LRANGE likewise |
| `HealthWindow.HealthTracker.Read` | keel/health/window.py:251-282 | unknown exactly when unreachable; otherwise it cannot raise, and its counts are the sums of one reply per bucket, each answered from the log at its own moment between call and return; it invents and repeats no attempt, counts no fewer than a whole read at the start unless a deadline passes before a bucket's command, misses none committed before it began unless a covered bucket outlived its TTL (which none has for a reader at most one window behind), and without traffic is exact precisely then |
| `HealthWindow.HealthTracker.Snapshot` | keel/health/window.py:284-324 | one count reply and one list per bucket, each answered at its own moment between call and return, every count before every list; counts bounded as in a read; samples at most the total plus what landed meanwhile, at least the capped totals of the replies unless a deadline passes between a bucket's two commands, exactly those without traffic; percentiles of exactly the usable entries of the lists; where nothing was lost and without traffic, these are each bucket's newest 200 |
| `HealthRuns.StepKeeps` | keel/health/window.py:199-249 | every step of every process and of the server keeps the system invariant |
| `HealthRuns.EveryRunKeeps` | keel/health/window.py:199-249 | so every reachable state satisfies it |
| `HealthRuns.LogRefinement` | keel/health/window.py:199-282 | for any interleaving of starts, commits, lost replies, drops, cancellations, clock advances and reclaims, a reader at most one window behind reads the exact histogram of committed attempts in range |
| `TornRuns.RunsMoveForward` | keel/health/window.py:199-282 | along a run the log only grows and time never turns back, so the moments of a reader's commands are in order |
| `TornRuns.TornReadInRun` | keel/health/window.py:251-282 | inside any run, with other processes at work between a read's commands, each count of a reader within one window at its last command lies between the exact counts at its first and its last |
| `TornRuns.TornSnapshotInRun` | keel/health/window.py:284-324 | likewise a snapshot: counts as a read's, samples between the capped totals and the total plus what landed meanwhile, exact when nothing landed |
| `HealthRuns.NoReadInventsCommits` | keel/health/window.py:251-282 | at every instant of every run no read reports more of an outcome than was committed with it |
| `HealthRuns.NoReadInventsAttempts` | keel/health/window.py:251-282 | ... and so no more than were ever started with it |
| `HealthRuns.ReadSandwich` | keel/health/window.py:22-31 | in any run, for a reader no writer has run past and at most one window behind, exact count of ages up to window - bucket <= the count read <= exact count of ages below the window |
| `HealthRuns.CommitsPlusDrops` | keel/health/window.py:221-249 | with a transaction free to run before or after its writer hears, reports or is cancelled, commits plus drop callbacks cover every record whose writer is done and was not cancelled, and exceed them exactly by the records that ran unheard; once none waits and none was cancelled, they equal the records if and only if none ran that was reported dropped |
| `Labels.LabelCapper.Cap` | keel/observability/metrics.py:172-194 | the label recorded is the value if admitted and the overflow label otherwise; the warning is latched by the first overflow |
| `Labels.SeenBounded` | keel/observability/metrics.py:146-164 | never more than the cap admitted, and only values that arrived |
| `Labels.SeenGrows` | keel/observability/metrics.py:159-163 | nothing admitted is ever evicted, and a full set never changes |
| `Labels.LabelNeverChanges` | keel/observability/metrics.py:159-163 | a value has the same label at every occurrence over the life of the process |
| `Labels.FirstSeenWins` | keel/observability/metrics.py:159-177 | a value is admitted if and only if fewer than cap distinct values came before some occurrence of it |
| `Labels.LabelsBounded` | keel/observability/metrics.py:81-88 | at most cap + 1 labels are ever used, 65 under the shipped cap |
| `Labels.CappingIsLossless` | keel/observability/metrics.py:159-164 | an admitted value's label counts its occurrences exactly, the overflow label counts exactly the rest, no other label exists |
| `Metrics.MetricsCatalogue.constructor` | keel/observability/metrics.py:209-226 | both label budgets start empty and separate; the dropped-write series start at zero |
| `Metrics.MetricsCatalogue.ObserveRequest` | keel/observability/metrics.py:378-399 | one series moves, by one: that of the two capped labels, the class, the provider and the outcome |
| `Metrics.MetricsCatalogue.ObserveAttempt` | keel/observability/metrics.py:357-376 | one duration observed, in seconds, and one error counted exactly when the attempt failed |
| `Metrics.MetricsCatalogue.ObserveOverhead` | keel/observability/metrics.py:401-412 | one overhead observed, never negative |
| `Metrics.MetricsCatalogue.ObserveDroppedHealthWrite` | keel/observability/metrics.py:414-416 | one more dropped write for the provider |
| `Metrics.NextRequest` | keel/observability/metrics.py:378-399 | one more request moves each label stream and one series, and changes nothing recorded before |
| `Metrics.SeriesNeverFall` | keel/observability/metrics.py:159-164 | no series is ever reset or loses a count |
| `Metrics.TotalIsCount` | keel/observability/metrics.py:391-399 | any selection of series sums to the number of requests counted under it |
| `Metrics.SeriesAreLossless` | keel/observability/metrics.py:146-164 | over any run the series sum to the requests observed, an admitted tenant's or feature's to its exact count, the overflow's to the rest, each budget on its own |
| `MockProvider.ManualClock.Sleep` | keel/clock.py:94-101 | time moves by exactly the duration; a negative one is refused |
| `MockProvider.MockAdapter.constructor` | keel/providers/mock.py:130-148 | a new adapter's streams start from its seed |
| `MockProvider.MockAdapter.SeedStreams` | keel/providers/mock.py:150-154 | three streams, three seeds, none drawn from |
| `MockProvider.MockAdapter.ResyncStreams` | keel/providers/mock.py:156-159 | the streams restart exactly when the seed value changed since they were built |
| `MockProvider.MockAdapter.Reseed` | keel/providers/mock.py:161-168 | the streams restart even under the same value |
| `MockProvider.MockAdapter.BeginInvoke` | keel/providers/mock.py:178-186 | up to its sleep a call may restart the streams and take one latency draw, none for a fixed or zero latency |
| `MockProvider.MockAdapter.FinishInvoke` | keel/providers/mock.py:238-247 | after its sleep it takes one failure draw, and one class draw only if it fails |
| `MockProvider.MockAdapter.Invoke` | keel/providers/mock.py:222-260 | a call alone sleeps exactly its drawn latency and reports it |
| `MockProvider.MockAdapter.Retune` | keel/api/app.py:766-777 | fields are assigned in order up to the first rejected one; a reseed only when a seed was named and all held: the outcome MockProvider.ChaosOutcome and MockDraws.ChaosIsEvents speak of |
| `MockProvider.ChaosOutcome` | keel/api/app.py:719-777 | a request is accepted exactly if every value it names is in range; the state stays valid; an accepted request sets exactly the named fields and restarts the three streams, each at its first draw, exactly when it names a seed; a refused one never touches seed or streams, and leaves no trace exactly when the earlier fields were unchanged |
| `MockProvider.RefusalKeepsTheRate` | keel/api/app.py:766-777 | a concrete refused request that leaves its error rate set |
| `MockDraws.ChaosIsEvents` | keel/api/app.py:766-777 | a chaos request acts on a run as setting its fields up to the first out of range, then the seed and a reseed exactly when it is accepted and names one, and gives no verdict, so every theorem about runs holds of retuned ones |
| `MockProvider.OnlyTheProjectionMatters` | keel/providers/mock.py:117-124 | events other than calls, error-rate and seed changes and reseeds have no bearing on any verdict |
| `MockProvider.VerdictsIgnoreLatencyAndMix` | keel/providers/mock.py:117-124 | two runs with the same seeds, error rates and order of sleeping and waking give the same verdicts, whatever their latencies, spreads and class mixes |
| `MockProvider.FailureStreamIs` | keel/providers/mock.py:150-168 | after any history the failure stream stands at the wakes since the last (re)seeding, on the seed then in use |
| `MockProvider.KthToWake` | keel/providers/mock.py:222-247 | over any history of calls, rate changes, seed changes and reseeds, the k-th call to wake fails exactly when the draw numbered by the wakes since the last (re)seeding, from the seed then in use, is below the rate at that moment |
| `MockProvider.WithinOneSeeding` | keel/providers/mock.py:222-247 | while the seed is left alone, whatever the rates, that is draw k |
| `MockDraws.AdapterIs` | keel/providers/mock.py:150-206 | the whole adapter after any history: the knobs last set, and the three streams on the seed in use, the next and the one after, standing at the wakings, the failures and the jittered sleeps since the last restart |
| `MockDraws.NextCallDraws` | keel/providers/mock.py:178-247 | after any history, which draw decides the next call to wake, which picks its class, and which gives the next call to sleep its latency, none for a fixed or zero latency |
| `MockDraws.DrawsWithinOneSeeding` | keel/providers/mock.py:178-247 | while the seed is left alone the class draws are the failures so far and, while latency and spread stay above zero, the latency draws the calls gone to sleep |
| `MockProvider.SequentialCalls` | keel/providers/mock.py:222-247 | for calls one after another, with any retuning and reseeding between and during them, the k-th verdict is call k's |
| `MockProvider.WakingOrderDecides` | keel/providers/mock.py:121-122 | with two calls in flight, which one fails depends on which wakes first |
| `MockProvider.SameVerdictsIff` | keel/providers/mock.py:121-122 | two runs from one seed, with any rate changes, give every shared call the same verdict under every generator if and only if each wakes at the same rank and rate in both, or at rates of zero or less in both, or of one or more in both |
| `MockProvider.NextCallIsFreshIff` | keel/providers/mock.py:156-168 | the next call starts from fresh streams if and only if the seed value changed or nothing was drawn |
| `MockProvider.ReseedReplays` | keel/providers/mock.py:161-168 | whatever ran before a reseed and whatever is in flight, all that follows goes as on a fresh adapter with the same knobs |
| `MockProvider.NewSeedReplays` | keel/providers/mock.py:126-159 | a new seed value takes effect at the next call to start, however much retuning and waking lies between, and from there all goes as on a fresh adapter |
| `MockProvider.ReplayIsFaithfulIff` | keel/providers/mock.py:161-168 | a reseed replays a retuned scenario verdict for verdict, whatever the generator, if and only if no call asleep at the reseed wakes before one of the scenario's whose rate at its waking is strictly between zero and one |
| `MockProvider.StragglerTakesTheDraw` | keel/providers/mock.py:161-168 | a concrete replay that goes differently |
| `TextForms.StripTrims` | keel/api/envelope.py:176-195 | stripping leaves no white space at either end and leaves trimmed text alone |
| `TextForms.StripTakesOnlySpace` | keel/api/envelope.py:176-195 | stripping takes white space off the two ends and nothing else; blank means all white space |
| `TextForms.SpacesAre` | keel/api/envelope.py:176-195 | white space is the 29 code points Python strips |
| `TextForms.LowerIdentifiesCase` | keel/api/envelope.py:248-250 | lowering makes two names equal if and only if they differ in the case of ASCII letters only |
| `TextForms.SplitUndoesJoin` | keel/api/envelope.py:216-217 | splitting a comma-joined list of comma-free tags gives the list back |
| `TextForms.TagRoundTrip` | keel/api/envelope.py:198-220 | trimmed, non-empty, comma-free tags survive joining and parsing |
| `Envelope.ProblemList.Append` | keel/api/envelope.py:246 | one shared list, in the order problems are found |
| `Envelope.LowerHeaders` | keel/api/envelope.py:248-250 | header names fold to lower case; under any name is the value of the last header spelt so in any letter case |
| `Envelope.LoweredFinds` | keel/api/envelope.py:248-250 | a name is found if and only if some header has it in some letter case |
| `Envelope.LastIsFound` | keel/api/envelope.py:248-250 | and what is found is the last such header's value |
| `Envelope.SplitExtension` | keel/api/envelope.py:117-161 | payload and extension part; a wrong shape or unknown keys are reported and parsing carries on |
| `Envelope.Resolve` | keel/api/envelope.py:164-195 | a non-blank header wins, else a non-blank body string; only an unmasked body value of another type is a problem |
| `Envelope.ResolveCapabilities` | keel/api/envelope.py:198-230 | absent means no constraint; a body value of the wrong shape is a problem |
| `Envelope.ResolveAll` | keel/api/envelope.py:254-258 | every string field resolved, type problems in field order |
| `Envelope.DemandRequired` | keel/api/envelope.py:261-271 | one problem per unresolved required field, in declaration order |
| `Envelope.RaiseFor` | keel/api/errors.py:200-214 | no error exactly for no problems; malformed exactly when some problem is structural; all problems carried |
| `Envelope.BuildEnvelope` | keel/api/envelope.py:233-316 | an envelope exactly when no problem is expected, the one Channels.EnvelopeCarriesHeaders and Channels.EnvelopeCarriesExtension read field by field; else a rejection with exactly the expected list in order, malformed exactly when some problem is one of shape |
| `Envelope.NoProblemsIffAcceptable` | keel/api/envelope.py:233-316 | no problem is expected if and only if a declarative condition on headers, body and configuration holds |
| `Envelope.ProblemsAreExactlyTheCauses` | keel/api/envelope.py:117-301 | a problem, path, header and code, is reported if and only if its cause is in the input; an idempotency key is demanded only by a known deferrable class |
| `ProblemLists.NothingIsReportedTwice` | keel/api/envelope.py:117-301 | each problem of a rejection appears exactly once, so with the causes above the list is an exact account |
| `ProblemLists.ReportedInOrder` | keel/api/envelope.py:233-301 | problems come in one fixed order: the extension as a whole, wrong types field by field, the tags, missing fields one by one, and last what the class demands |
| `ProblemLists.UnknownKeysAsSent` | keel/api/envelope.py:149-161 | unknown keys are reported in the order of the extension, each under its own path |
| `Channels.HeaderCaseIsIgnored` | keel/api/envelope.py:248-250 | requests whose header names are equal but for upper-case ASCII letters against the ones 32 above get the same problems or the same envelope (section 5.1 of RFC 9110) |
| `Channels.EnvelopeCarriesHeaders` | keel/api/envelope.py:303-316 | of an accepted request, tenant, feature, request id, class, idempotency key and tags are each the stripped value of the last header of its own name in any letter case; it is deferrable exactly if the class named is; the time is that of its arrival |
| `Channels.EnvelopeCarriesExtension` | keel/api/envelope.py:164-230 | or the stripped value of its own member of the extension, where its header is absent or blank; tags also as a list, item by item |
| `Channels.ChannelsAgree` | keel/api/envelope.py:164-316 | any field supplied as a string by header or in the extension, and on neither otherwise, makes the same request: the same problems in the same order, or the same envelope |
| `Channels.HeaderMasksBody` | keel/api/envelope.py:164-230 | a non-blank header makes whatever the extension says of its field, of whatever type, as if it were not there, for the whole request |
| `Channels.NoExtensionIsEmpty` | keel/api/envelope.py:130-132 | no extension and an empty one are the same request |
| `Channels.CapabilitiesRoundTrip` | keel/api/envelope.py:198-220 | a set of tags survives either channel as one comma-separated string, and a header overrides the body |
| `Envelope.PayloadIsBodyMinusExtension` | keel/api/envelope.py:117-132 | the payload is the body without its extension and otherwise untouched |
| `Startup.CheckPreferences` | keel/config.py:184-201 | the errors are the undefined preferences, class by class |
| `Startup.UndefinedIsFilter` | keel/config.py:189-198 | class by class in file order, those with an undefined preference and no others |
| `Startup.UnknownIsFilter` | keel/config.py:193 | each with exactly its undefined names, in preference order |
| `Startup.NoneUndefined` | keel/config.py:184-201 | no error exactly when every preference of every class is a configured provider |
| `Startup.BuildRegistry` | keel/providers/registry.py:69-130 | all adapters or none, with every unbuildable entry reported; the guard on a missing model never fires |
| `Startup.CredentialIs` | keel/providers/credentials.py:48-61 | a credential that is absent or all white space counts as none; any other is stripped of white space at its ends |
| `Startup.RegistryComplete` | keel/providers/registry.py:87-130 | the registry's names are exactly the configured ones, and each adapter carries its entry's name |
| `Startup.AdapterPerEntry` | keel/providers/registry.py:87-111 | each adapter is of the kind its entry asks for, a Cohere one on its entry's model and with the credential |
| `Startup.ProblemPerUnbuildable` | keel/providers/registry.py:81-128 | a problem is reported if and only if it is a Cohere entry lacking the credential or an Azure or Bedrock entry not implemented, and names that entry |
| `Startup.ProblemsInFileOrder` | keel/providers/registry.py:84-128 | each once, in file order |
| `Startup.RoutingIsTotal` | keel/routing/router.py:42-98 | for a valid configuration, its registry and any accepted envelope, candidates are the preference configured for its class, in order, non-empty, free of repeats, all configured and in the registry |
| `Reachability.ClassReachableIff` | keel/api/envelope.py:164-285 | some request is accepted for a configured class if and only if the class's name is non-empty and has no white space at either end, so the guarantee above is about real requests |
| `Gateway.Executor.Execute` | keel/routing/executor.py:119-192 | every attempt is recorded once and observed once whatever its outcome, timeouts included; a guard leaves no trace |
| `Gateway.Ingress.ChatCompletions` | keel/api/app.py:589-666 | a rejected request moves no series; a served one, failed or not, is counted once under its own labels, with overhead clamped at zero |
| `Gateway.GuardsFireIff` | keel/routing/executor.py:126-144 | for any configuration and registry, which guard stops a request: its class is not configured, has no preference, or prefers a provider without an adapter |
| `Gateway.NoGuardFires` | keel/routing/executor.py:126-153 | behind a valid configuration no accepted request meets a guard; the result names the first preference of its class; where a configured deadline was overrun it is a timeout that took the clock's elapsed milliseconds, never below zero, and otherwise its outcome and latency are the provider's own |
| `Gateway.AttemptIsCarried` | keel/routing/executor.py:145-166 | that outcome and that latency reach the window and the series: one attempt under the outcome, the latency as newest sample of its bucket, one more duration of the class and provider, in seconds |
| `GatewayRuns.RecordsAreARun` | keel/routing/executor.py:160-166 | the records of a gateway's overlapping requests are a run of the shared store, so all that is proved of such runs holds of them |
| `GatewayRuns.RequestsAreTheCalls` | keel/routing/executor.py:119-126 | the requests of a run are its executor calls in order, each with the labels it was called with to the end |
| `GatewayRuns.EveryRequestSound` | keel/routing/executor.py:145-192 | in every run a counted request has heard of its record or reported it dropped, a cancelled one is not counted, and each request and its own record agree on what became of it |
| `GatewayRuns.LogIsLanded` | keel/routing/executor.py:160 | per provider and outcome, the commits are exactly the requests whose record landed |
| `GatewayRuns.NoRecordIsStuck` | keel/health/window.py:217-249 | a recording request can always report a drop or be cancelled, its transaction can run or vanish while it has done neither, and success can be heard once it ran |
| `GatewayRuns.LateCommitIsPossible` | keel/health/window.py:236-249 | a transaction can still run exactly while it is in flight, whatever became of its request |
| `Accounting.EverySeriesBalances` | keel/observability/metrics.py:357-416 | at every instant of any interleaving and for any selection of series, durations and provider errors are the requests counted, overheads the requests closed, dropped writes the requests whose record was reported dropped |
| `Accounting.SumsBalance` | keel/observability/metrics.py:357-412 | the durations observed sum, per class and provider, to the provider's seconds over the requests counted; the overheads, per class, to what was left of the wall clock of the requests closed, never below zero |
| `Accounting.RequestSeriesBalance` | keel/api/app.py:648-650 | so are the request series, by any selection of class, provider and outcome, whatever became of the client's labels |
| `Accounting.LabelSeriesBalance` | keel/observability/metrics.py:378-399 | and by tenant and by feature: an admitted label has exactly the requests counted that carried it, the overflow label exactly those that carried any other |
| `Accounting.CommitsMatchCounters` | keel/routing/executor.py:160-166 | per provider and outcome at every instant, commits plus requests past recording whose record is not, or not yet, in the store are the error series of that provider and class (or its successes), plus the requests on their way to be counted, plus those cancelled although their record ran; none exceeds the calls, and what is missing was reported dropped |
| `Accounting.QuiescentBooksAgree` | keel/routing/executor.py:160-166 | once all requests are closed and nothing was dropped, the commits are the counters, provider by provider and class by class |
| `Accounting.ReadAgainstErrorSeries` | keel/health/window.py:251-282 | no read of any window exceeds the error series of its provider and class by more than the requests on their way to be counted or cancelled after their record ran |
| `Accounting.CountersAgree` | keel/api/app.py:635-666 | requests equal durations, neither errors nor overheads exceed them, none exceeds the calls; once all are closed all are equal |
| `Normalize.FirstMatchIsNearest` | keel/providers/normalize.py:83-143 | in a most-specific-first table the first match is the closest mapped ancestor |
| `Normalize.UnmappedIsServerError` | keel/providers/normalize.py:135-143 | an exception no row reaches is a server error |
| `Normalize.ReorderingIsHarmless` | keel/providers/normalize.py:83-93 | every most-specific-first order of the same rows classifies every exception alike |
| `Normalize.EveryRowReachableIff` | keel/providers/normalize.py:83-93 | the order is most specific first if and only if every row decides its own class |
| `Normalize.FirstRuleIsFirst` | keel/providers/normalize.py:212-225 | the rule that fires is the first that matches, and none fires only if none matches |
| `Normalize.RefinementIsGated` | keel/providers/normalize.py:160-253 | refinement changes only a server error matched by the provider's own rules, by the first that matches, and never towards counting for the breaker |
| `Normalize.BadKeyDoesNotTripTheBreaker` | keel/providers/normalize.py:164-209 | with the shipped rules a server error stops counting exactly when a Cohere message says the key is bad |
| `LoadDriver.Outcome.constructor` | scripts/loadgen.py:68-75 | an outcome starts empty |
| `LoadDriver.Outcome.OneRequest` | scripts/loadgen.py:148-168 | one status per request, a latency only when a response came back |
| `LoadDriver.Outcome.PercentileOf` | scripts/loadgen.py:81-92 | a latency some request saw; the gateway's percentile of the same latencies, or the next sample up exactly in the disputed case |
| `LoadDriver.LetRun` | scripts/loadgen.py:202-208 | while control is given up, pending requests finish in any order, each recorded once |
| `LoadDriver.Drive` | scripts/loadgen.py:171-210 | terminates after exactly ceil(duration rps) spawns, each no earlier than its place in the schedule; every request is recorded once, so sent is that number and latencies are no more |
| `LoadDriver.DueIff` | scripts/loadgen.py:197-200 | the deadline admits exactly the requests numbered below duration x rps |
| `LoadDriver.ScheduleIs` | scripts/loadgen.py:191-200 | request i is due i / rps seconds into the run, and ceil(duration rps) are fired |
| `LoadDriver.SlowSpawnIsAbsorbed` | scripts/loadgen.py:186-187 | after any delay, lateness falls by the slack of each step until one sleep's overshoot is left |
| `LoadDriver.NoDrift` | scripts/loadgen.py:186-187 | while no step's work outlasts the interval, however long the run and however far sleeps overshoot, no request is later than the first or than the worst single overshoot |
| `LoadDriver.FinishOrderIsIrrelevant` | scripts/loadgen.py:207-208 | the statuses and, as a multiset, the latencies do not depend on finishing order |
| `LoadDriver.StatusesAre` | scripts/loadgen.py:148-168 | a status is told as often as a request came back with it or failed under that name |
| `LoadDriver.LatenciesAre` | scripts/loadgen.py:148-168 | a latency, in milliseconds, is there for every response and for no failure |
| `LoadDriver.ReportIgnoresScheduling` | scripts/loadgen.py:213-232 | two runs with the same answers report the same statuses and percentiles |

## Left out

- The store is one keyspace with only the commands the window uses. A key holding a value of another type, the 64-bit
  overflow of HINCRBY and any client's own expiry settings are not modelled.
- HealthWindow.CountAndSampleTogetherIff: assumes neither key of the bucket holds a value of the other type.
- Parsing of stored text: a stored value is an integer or not, a sample a number, not-a-number or text. Python's
  lenient spellings (`1_000`, leading blanks, `inf`) are not modelled.
- Latencies, clocks and percentiles are exact reals; IEEE 754 rounding is not modelled.
- Network, time box and cancellation appear only as their outcomes: a transaction ran and was heard, ran unheard, or
  did not run; a read reached the store or did not.
- HealthWindow.HealthTracker.Record: the drop callback is a list of provider names, not a call into the metrics; a
  transaction the server runs only after the call gave up is a later event of the store (`HealthStore.Event`), and whole
  runs with such transactions are in `HealthRuns` and `GatewayRuns`.
- HealthRuns works on values, since its steps interleave several processes; it uses the same transition functions the
  tracker's methods are proved against. `GatewayRuns` does the same for the executor's and the catalogue's methods.
- MockProvider.ReplayIsFaithfulIff: the scenario itself leaves the seed alone; its knobs other than the seed may change.
- Prometheus collectors: a series is a count, a histogram a count and a sum. Buckets, exposition text, start-up priming
  of other series and the metrics nothing yet produces are left out.
- Random generators are uninterpreted functions of seed and draw index; the lognormal and weighted draws likewise.
- MockProvider.MockAdapter.Invoke: runs on the manual clock only; token estimates and response bodies are left out.
- The order in which a chaos request's fields are assigned is that of the request model; unknown fields and values of
  the wrong type are refused before the route and not modelled.
- Envelope.LowerHeaders: folds ASCII letters only; header names are ASCII.
- JSON objects are association lists; a mapping from Python has each key once, and lookups here take the first.
- ProblemLists.NothingIsReportedTwice: assumes the extension object has each key once, as any decoded object does.
- Message texts, logs, HTTP status codes and rendered bodies.
- Envelope.ResolveAll: in the source this comprehension is part of the body of `build_envelope`.
- YAML reading and field-level validation; the configuration starts as a typed value, and its cross-field validators are
  predicates. Capabilities, pricing, hedging and latency budgets of the configuration decide nothing yet.
- Gateway.Executor: metrics are always present, and an adapter raises no timeout of its own.
- The shipped exception table names classes of third-party libraries that are not part of the repository, so whether
  it is most specific first is not stated; every result holds for any table that is.
- Multiple inheritance among exceptions, and the regular expressions of the refinement rules (uninterpreted predicates).
- LoadDriver.Drive: a sleep never ends early; connection set-up, headers and the printed report are left out.
- The circuit breaker, capability filter, failover, hedging, deferred queue and cost engine, which have no code yet.
