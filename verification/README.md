# Verification of the OEE demo cell

Three parts of the repository are modelled in Dafny and their promises proved: the collector, which
turns the PLC's tag changes into facts in a database; the OEE core, which turns facts into accounted
time; and the simulator of the cell, which produces the tag changes.

**How it is built.** Each part has a specification on plain values (functions on datatypes, maps,
sequences and sets) and the source's own form beside it: classes whose methods update fields, and
methods with the source's loops, each proved equal to the specification. The laws are then proved
about the specification, over every input, every run, or every reachable state.

- *Collector.* The database is one map per table, keyed by natural key; an operation means what its SQL
  statement does to the rows. A run is any sequence of batches of groups (late, reordered, repeated)
  and crashes between transactions. A stop row is what an event implies (`History.StopsOf`), a restart
  is `Repair`, `resume` and a replay of the current values.
- *OEE.* Instants are integers (microseconds), and an interval list stands for the set of instants it
  covers, so "seconds" are sizes of sets and every identity is exact. The reference account of a window
  (`Oee.AccountOf`) looks at each instant once and knows nothing of intervals or loops.
- *Simulator.* Times are exact `real` seconds, the heap a set of events ordered by time and sequence
  number, and every random draw an argument (`Simulator.Draws`), so a theorem about a run holds for all
  possible draws. The distributions only matter through their signs.

**What turned out false, and exactly when it holds.** Each but the last comes with an input at which it fails.
A restart is transparent if and only if the tracker is settled (`Restarting.ReplaySilentIff`), which
ordered streams guarantee and late changes do not (`LateChanges.LateChangesBreakTransparency`). The
open-stop repair reaches its documented goal exactly on the tables of `Storage.Repairable`
(`RepairMissesLaterStop`). A combined result passes `check_invariant` exactly when its windows add up to
the span (`HoleFailsCheck`). Shift windows tile a range exactly when the shifts make one day, which
validation does not check (`TwoWholeDaysOverlap`). `next_window` is the earliest open window at every
instant exactly when a day's last break ends within 72 hours (`LateOffsetIsMissed`). A forced fault
leaves a sound state exactly when it is refused, or its duration is not negative and, where it is zero,
one is configured (`ForcedForMinusOne`, `ForcedWithoutDuration`). `complement` is exact if and only if no
interval starts past the upper bound; its two callers clip first and never reach the other case
(backend/app/oee/compute.py:96-97, backend/app/oee/pareto.py:82-83).

**Values are pinned, not only times and keys.** Beside the laws stand lemmas that tell, from the inputs alone, what
every stored, computed or published value is: table rows from the stream (`Contents`, `Batches`), parts and times from
deltas and instants (`Counters.DeltasTell`, `OeeMeaning`), buckets from stops (`Buckets`), wear from the run (`Wear`),
the published image from the cell (`SimImage`).

**Files.** `Basics`, `Facts` (shared vocabulary); `Tracker`, `Store`, `History`, `Restarting`, `Transparency`,
`LateChanges`, `Contents`, `Assembler`, `Batches`, `Watchdog`, `Pipeline`, `Progress`, `Observing` (collector);
`Intervals`, `Counters`, `Compute`, `OeeLaws`, `OeeMeaning`, `RangeQuery`, `Production`, `Pareto`, `Buckets`,
`Windows`, `Timeline` (OEE); `Shifts`, `Simulator`, `SimLaws`, `SimLog`, `SimRuns`, `SimRestarts`, `Maintenance`,
`Wear`, `SimStops`, `SimImage`, `SimClock`, `Engine` (simulator). `dafny verify dfyconfig.toml` checks everything.
## Model

| member | source | states |
|---|---|---|
| `Tracking.StopTracker.ApplyGroup` | backend/app/collector/tracker.py:72-83 | `apply` emits exactly the operations, and leaves exactly the state, of the specification function `Apply`, and raises in the same cases |
| `Tracking.StopTracker.LearnGroup` | backend/app/collector/tracker.py:75-79 | the image keeps, for every tag of the group, the newest value by source timestamp and leaves every other tag alone |
| `Tracking.StopTracker.RecordCell` | backend/app/collector/tracker.py:91-116 | a cell event is emitted only for a changed, complete and newer triple; otherwise nothing moves |
| `Tracking.StopTracker.Move` | backend/app/collector/tracker.py:118-132 | one transition: the event, the close of the open stop, the opening of the next one, and the new memory |
| `Tracking.StopTracker.RecordStations` | backend/app/collector/tracker.py:136-152 | the three stations, each with its own last event |
| `Tracking.StopTracker.RecordCounter` | backend/app/collector/tracker.py:154-165 | at most one counter sample per newer instant, once all four counters are known, as the specification has it; with which values is what `Contents.TablesAreTold` says |
| `Tracking.StopTracker.RecordWeld` | backend/app/collector/tracker.py:167-181 | at most one weld sample per newer instant |
| `Storage.CollectorStore.Apply` | backend/app/collector/store.py:101-123 | batching runs of one operation type gives the same tables as one operation at a time in order; last_seen never decreases |
| `Storage.CollectorStore.RepairOpenStop` | backend/app/collector/store.py:176-221 | the repair in place is the specification `Repair`; where `suggest_cause` raises, the transaction leaves the tables as they were |
| `Storage.CollectorStore.Resume` | backend/app/collector/store.py:132-174 | what is read back is the latest event per scope, the open stop, the newest samples, the mark and the open gap |
| `Storage.RepairExact` | backend/app/collector/store.py:176-221 | with one open stop at most, the repaired table agrees with the latest event if and only if no open stop lies at or past the event it should give way to and no closed row occupies the place to reopen |
| `Storage.RepairMissesLaterStop` | backend/app/collector/store.py:196-202 | an input at which it does not: PRODUCING at 10, a stop open since 20, which the repair leaves open |
| `Storage.StrayClosed` | backend/app/collector/store.py:196-202 | the stray stop is closed exactly when it starts before the latest event |
| `History.RepairRestores` | backend/app/collector/store.py:176-221 | where the latest event was stored but not its own stop, whether or not the stop before was closed, the repair gives exactly the stops table of the events: the row it reopens has the state, station, fault and cause of that event |
| `History.ApplyInStep` | backend/app/collector/store.py:132-174 | key lemma of restarts: after any group, reordered, late or repeated, `resume` of the committed database is the tracker's own memory |
| `History.ApplyAllInStep` | backend/app/collector/tracker.py:72-83 | the same over any sequence of groups |
| `History.StopsAreDisjoint` | backend/app/collector/tracker.py:118-132 | in a consistent database stops are non-empty, pairwise disjoint, at most one is open and it belongs to the latest event |
| `History.RepairIsIdle` | backend/app/collector/store.py:176-221 | on tables the collector wrote itself the repair changes nothing |
| `History.StopsMirrorEvents` | backend/app/collector/tracker.py:91-132 | over every run with late, reordered or repeated groups and crashes at any commit, the stops stored are exactly those of the events stored and no event repeats its predecessor |
| `History.FromScratch` | backend/app/collector/tracker.py:91-132 | the same from an empty database, with disjoint, non-empty stops |
| `History.HistoryIsAppendOnly` | backend/app/collector/store.py:37-72 | over every run stored events and closed stops are never rewritten and new events are newer than all stored ones |
| `Restarting.ReplayStep` | backend/app/collector/tracker.py:72-83 | replaying one instant of the image is silent exactly when the memory already covers that instant |
| `Restarting.ReplaySilentIff` | backend/app/collector/tracker.py:72-83 | replaying every tag's current value into a restarted tracker emits nothing and rebuilds it if and only if the tracker is settled |
| `Restarting.ApplySettles` | backend/app/collector/tracker.py:72-83 | a newer group keeps a settled tracker settled |
| `Transparency.CommitAppend` | backend/app/collector/store.py:101-115 | cutting a stream into transactions does not change what ends up stored |
| `Transparency.StreamStaysCurrent` | backend/app/collector/tracker.py:72-83 | an ordered stream keeps the tracker settled and its image current, ready for the rest of the stream |
| `Transparency.RestartsAreInvisible` | backend/app/collector/pipeline.py:51-65 | for every ordered stream and every set of cut points, crashing, resuming and replaying at each cut gives the tracker and the database of the uninterrupted run |
| `Transparency.RestartTransparency` | backend/app/collector/store.py:132-174 | the same for a collector that starts on any database it wrote |
| `LateChanges.LateChangesBreakTransparency` | backend/app/collector/assembler.py:26-37 | a concrete stream with one late change: the collector that stays up stores the event of 10, one that crashes at the end and comes back stores a second event, (PRODUCING, fault 7) at 30; so the strict order is needed |
| `Transparency.StreamAbsorbs` | backend/app/collector/tracker.py:91-181 | over an ordered stream begun by a full image, the tracker it ends with has nothing left to learn from any group it was ever given |
| `Transparency.RedeliveryIsInvisible` | backend/app/collector/tracker.py:72-181 | delivering again any of the groups, in any order and any number of times, emits no operation and leaves the tracker unchanged |
| `Transparency.RunIsItsLog` | backend/app/collector/store.py:101-115 | the database of any run is its operation log applied to the initial one, and every operation had its effect |
| `Transparency.LogIsIdempotent` | backend/app/collector/store.py:37-72 | writing any operations of a run again, in any order, changes nothing |
| `Contents.TablesAreTold` | backend/app/collector/tracker.py:85-181 | from nothing, for every ordered stream: the rows of the cell, station, counter and weld tables told from the groups alone. There is a cell (or station) event at a group's time exactly where its values become known or change, a counter sample exactly where a counter is brought and all four values are known, a weld sample exactly where a current is brought and all three are known, and no other row; every value in a row is the last one brought for that tag up to then |
| `Contents.TablesAreToldAcrossRestarts` | backend/app/collector/pipeline.py:51-65 | the same however often the collector crashes, resumes and is replayed to on the way |
| `Contents.LatestIsNewest` | backend/app/collector/tracker.py:75-79 | for streams in any order, late and repeated groups included: the value known of a tag is the newest one brought, of equally new ones the last |
| `Contents.IntegersTruncate` | backend/app/collector/tracker.py:101 | a float read as an integer loses its fraction, toward zero |
| `Assembling.ChangeAssembler.FeedChanges` | backend/app/collector/assembler.py:26-37 | `feed` is the specification `Feed`: late bins first, then what is ripe |
| `Assembling.ChangeAssembler.PollGroups` | backend/app/collector/assembler.py:39-51 | `poll` is the specification `Poll` |
| `Assembling.ChangeAssembler.FlushGroups` | backend/app/collector/assembler.py:53-60 | `flush` releases everything in order and moves the high mark to the newest |
| `Assembling.SiftKeeps` | backend/app/collector/assembler.py:26-37 | a change is flagged late exactly at an instant already released; a pending group keeps its first arrival time |
| `Assembling.PollOrder` | backend/app/collector/assembler.py:39-51 | groups leave in strictly increasing order, each after `settle_s` of waiting, none overtaken by a newer one |
| `Assembling.PollKeeps` | backend/app/collector/assembler.py:39-51 | what stays pending is newer than all released and its oldest group is not ripe |
| `Assembling.PollPrefix` | backend/app/collector/assembler.py:39-51 | released groups followed by pending ones are the pending groups of before |
| `Assembling.FlushReleases` | backend/app/collector/assembler.py:53-60 | a flush leaves nothing pending, and every instant that was pending or released counts as released |
| `Assembling.SessionOutput` | backend/app/collector/assembler.py:26-60 | the exact output of every session, with any arrival order, interleaving and lateness: on time, all the changes that came in time, grouped by timestamp and sorted, the last write to a tag winning; flagged, the late changes of each call, grouped and sorted |
| `Batches.LastWriteWins` | backend/app/collector/seed.py:43-50 | what grouping means: one group for every instant of the changes and for no other, in increasing order, with exactly the tags written at that instant, each with its last write; the same for the late groups of a call |
| `Assembling.StreamingEqualsBatch` | backend/app/collector/seed.py:43-50 | where nothing is late, that is all changes grouped by timestamp in increasing order |
| `Assembling.NothingLostOrInvented` | backend/app/collector/assembler.py:26-60 | a tag comes out at an instant if and only if it was pending or fed there, and every value that comes out is one that some change gave that tag at that instant |
| `Assembling.SessionNeverGoesBack` | backend/app/collector/assembler.py:26-60 | over every session on-time groups come out strictly increasing |
| `Watching.HeartbeatWatchdog.OnHeartbeat` | backend/app/collector/watchdog.py:61-77 | the reaction to a heartbeat: replay ignored, open gap closed, jump recorded |
| `Watching.HeartbeatWatchdog.PollSilence` | backend/app/collector/watchdog.py:79-87 | silence beyond the timeout opens one gap at the last heartbeat |
| `Watching.HeartbeatWatchdog.OnConnected` | backend/app/collector/watchdog.py:56-59 | a reconnection restarts the timeout and asks for a jump check |
| `Watching.HeartbeatWatchdog.SeedFirst` | backend/app/collector/watchdog.py:45-54 | a first run observes from its oldest change on |
| `Watching.GapsAreUnobservedIntervals` | backend/app/collector/watchdog.py:61-87 | for every interleaving of heartbeats, polls and reconnections the gaps stored are exactly the intervals between accepted heartbeats in which silence was seen or a pending check found a jump |
| `Watching.SessionGaps` | backend/app/collector/watchdog.py:26-39 | the same for a session that resumes from last_seen on any table without an open gap; rows stored before stay as they are |
| `Watching.RestoredGapCloses` | backend/app/collector/watchdog.py:61-67 | a gap found open is closed by the first new heartbeat past its start, whatever came before it, and the session goes on gap-free |
| `Watching.GapsAreDisjoint` | backend/app/collector/watchdog.py:61-87 | gaps are non-empty, pairwise disjoint and in order |
| `Collecting.Collector.Consume` | backend/app/collector/pipeline.py:103-117 | one batch: heartbeats to the watchdog, the rest through the assembler and the tracker, then one write |
| `Collecting.Collector.TickOnce` | backend/app/collector/pipeline.py:119-130 | one tick |
| `Collecting.Collector.DrainOnShutdown` | backend/app/collector/pipeline.py:132-138 | a clean stop flushes the assembler and forces a write |
| `Collecting.Collector.Commit` | backend/app/collector/pipeline.py:153-165 | the write and the rule for moving the progress mark |
| `Collecting.CallStores` | backend/app/collector/pipeline.py:103-138 | each call commits exactly what the tracker made of the groups handed to it |
| `Collecting.MarkIsSafe` | backend/app/collector/pipeline.py:140-151 | whenever the mark moves it rises, and it stays below every change still waiting |
| `Progress.MarkGoesAllTheWay` | backend/app/collector/pipeline.py:140-165 | and it goes all the way: after a call that stores anything, comes past the flush interval or drains, every instant up to the newest received and before the oldest pending is marked; when the mark moves it is the last such instant; the one in the database never goes back |
| `Progress.NewestIsKnown` | backend/app/collector/pipeline.py:115-116 | over every session the newest timestamp known is that of the newest change that came, heartbeats included, or the one resumed from |
| `Progress.DrainMarksEverything` | backend/app/collector/pipeline.py:132-138 | a session that ends with a drain has marked the newest timestamp it received |
| `Progress.BeatsAreSorted` | backend/app/collector/pipeline.py:109-111 | the watchdog hears all heartbeats of a batch, none twice, in timestamp order |
| `Progress.OthersAreTheRest` | backend/app/collector/pipeline.py:112-114 | the assembler is fed every other change of a batch, none invented, and the last write of each tag and instant is the same |
| `Collecting.SessionIsAccounted` | backend/app/collector/pipeline.py:95-138 | over every session the tables hold exactly what the tracker makes of the groups handed over; no change received is lost, and every value handed over or waiting was received for that tag and instant |
| `Collecting.ProgressIsStored` | backend/app/collector/pipeline.py:140-165 | whenever the mark moves, every change received up to it has been handed over, with a value received for its tag and instant, and is accounted for in the tables |
| `Collecting.DrainedSessionStoresTheBatch` | backend/app/collector/seed.py:43-50 | end to end: a drained session without late changes stores exactly what the tracker makes of the changes grouped and sorted |
| `Collecting.DrainedSessionHandsOver` | backend/app/collector/pipeline.py:95-138 | the same with late changes: what is handed over, and stored, is the batch of what came in time and, call by call, the groups of what came late |
| `Observing.SessionGapsAreStored` | backend/app/collector/pipeline.py:103-130 | over every session that resumes without an open gap, the gaps table gains exactly the heartbeat intervals that went unobserved, whatever the tracker writes in the same transactions |
| `Observing.FirstRunGapsAreStored` | backend/app/collector/pipeline.py:103-117 | the same for a first run, counted from the oldest change of its first batch |
| `Intervals.Merge` | backend/app/oee/intervals.py:10-19 | sorted, strictly separated, non-empty intervals covering exactly the same instants |
| `Intervals.Clip` | backend/app/oee/intervals.py:22-23 | the union restricted to the bounds |
| `Intervals.Complement` | backend/app/oee/intervals.py:30-40 | the uncovered instants; exact if and only if no interval starts past the upper bound |
| `Intervals.Intersect` | backend/app/oee/intervals.py:43-55 | the two-pointer loop computes the intersection |
| `Intervals.Subtract` | backend/app/oee/intervals.py:58-71 | the cursor loops compute the difference |
| `Intervals.TotalIsMeasure` | backend/app/oee/intervals.py:26-27 | the total of a merged list is the number of instants it covers |
| `Intervals.MergedIsCanonical` | backend/app/oee/intervals.py:10-19 | two merged lists that cover the same instants are the same list |
| `Counters.CounterDeltas` | backend/app/oee/counters.py:25-44 | the loop computes the deltas of the samples in timestamp order, whatever their order |
| `Counters.DeltaIsSane` | backend/app/oee/counters.py:12-19 | no delta is negative, every delta but a reset is congruent modulo 2^32, a rollover is at most twice the window |
| `Counters.DeltaExact` | backend/app/oee/counters.py:12-19 | a counter that advanced by less than 2^32 is read exactly if and only if it did not wrap or wrapped within the window on both sides |
| `Counters.WrapsAreExact` | backend/app/oee/counters.py:12-44 | however many wraps occur, slow enough deltas sum to exactly the true count |
| `Counters.ProductionIsExact` | backend/app/oee/counters.py:25-44 | for each of the two counters: the parts of all deltas are exactly what was produced between the first and the last sample, however often the counter wraps and in whatever order samples come |
| `Counters.DeltasTell` | backend/app/oee/counters.py:12-44 | one delta per sample in timestamp order, the first revealing nothing; each later one carries its own sample's time and cycle, advances both counters modulo 2^32 or by nothing after a reset, and is a reset exactly if one of the counters was reset, else a rollover exactly if one rolled over |
| `Counters.InOrderSorts` | backend/app/oee/counters.py:32 | the samples are put in timestamp order, none lost or repeated, those of one instant as they were given |
| `Oee.ClassifyStops` | backend/app/oee/stops.py:14-36 | stops are classified on their whole duration; a producing stop is refused |
| `Oee.AccountsByPriority` | backend/app/oee/compute.py:107-118 | each account is what its stops cover minus what higher priorities claimed, instant by instant |
| `Oee.ObservedIn` | backend/app/oee/compute.py:96-97 | the gap intervals are exactly the instants of the window inside a gap, the observed ones all the others |
| `Oee.CoveredIn` | backend/app/oee/compute.py:99-106 | `within`: exactly the observed instants covered by one kind of stop |
| `Oee.ClaimLosses` | backend/app/oee/compute.py:112-116 | the priority loop: each second claimed once, by the highest of fault, setup, starved, blocked, manual |
| `Oee.CountParts` | backend/app/oee/compute.py:120-131 | the parts loop computes the specification, whose every field `OeeMeaning.PartsAreThoseSeen` tells from the deltas |
| `Oee.ComputeOee` | backend/app/oee/compute.py:80-159 | the whole of `compute_oee` equals the account of instants by category, independent of intervals and loops |
| `OeeMeaning.TimesAreInstants` | backend/app/oee/compute.py:96-118 | each time of a result is the measure of its own instants: of a loss, the observed ones it covers that are in no planned stop and in no loss that comes before it in the order fault, setup, starved, blocked, manual |
| `OeeMeaning.KindsByDuration` | backend/app/oee/stops.py:14-36 | a stop is classified on its whole duration: planned by its state alone, micro when it covers fewer instants than the threshold, a loss otherwise; an open one lasts until the bound |
| `OeeMeaning.PartsAreThoseSeen` | backend/app/oee/compute.py:120-131 | where gaps are not empty and samples are at distinct times: good and scrap are those of the window's deltas in whose interval every instant was observed, dropped is both of the others; useful time is good parts at the cycle time of their delta, and net time exceeds it by exactly the scrapped ones at theirs |
| `OeeMeaning.UnseenIsDropped` | backend/app/oee/compute.py:73-77 | for any gaps and samples, a delta with an unobserved instant since the previous sample is dropped; where gaps and intervals are not empty, no other is |
| `OeeMeaning.QualityIsGoodShare` | backend/app/oee/compute.py:51-54 | with one cycle time in force, useful time is good parts times it, net time all parts times it, and quality the share of good parts |
| `OeeMeaning.RatiosDivide` | backend/app/oee/compute.py:46-64 | availability is operating over required time, performance net over operating, quality useful over net, each given exactly where there is something to divide by |
| `OeeMeaning.AnomalyIsWorkAtRest` | backend/app/oee/compute.py:67-70 | an anomaly is reported exactly if parts were counted and the cell ran at no instant of the window |
| `OeeLaws.TimeIsConserved` | backend/app/oee/compute.py:253-258 | gap, planned stop, losses and operating time add up to the window exactly, and micro-stops are part of operating time |
| `OeeLaws.PartsAreConserved` | backend/app/oee/compute.py:120-131 | every part of the window is counted or dropped, never both |
| `OeeLaws.CutAddsUp` | backend/app/oee/compute.py:80-159 | cutting a window in two: every time and every count of the whole is the sum |
| `OeeLaws.SplittingChangesNothing` | backend/app/oee/compute.py:199-241 | `combine` of any partition has every time, count and ratio of the whole |
| `OeeLaws.OeeIsUsefulOverRequired` | backend/app/oee/compute.py:46-64 | OEE is useful over required time, and A x P x Q whenever the three are defined |
| `OeeLaws.ComputedPassesCheck` | backend/app/oee/compute.py:244-276 | every computed result passes `check_invariant` with no tolerance |
| `OeeLaws.CheckRefusesExactly` | backend/app/oee/compute.py:244-276 | for any result, computed or not, the check refuses exactly if one of the four identities is broken |
| `OeeLaws.CombinedPassesCheckIff` | backend/app/oee/compute.py:199-276 | a combination passes `check_invariant` if and only if the lengths of its windows add up to the span from first start to last end |
| `OeeLaws.CombinedPeriod` | backend/app/oee/compute.py:199-208 | the period of a combination reaches from the earliest start to the latest end of its windows, in any order |
| `OeeLaws.HoleFailsCheck` | backend/app/oee/compute.py:199-276 | an input at which it fails: two windows of ten with a hole of ten between them |
| `OeeLaws.ThresholdIsMonotone` | backend/app/oee/stops.py:29-34 | raising the micro-stop threshold never lowers operating time, micro time or availability and leaves the required time alone, even with overlapping stops |
| `RangeQuery.OverlapsSuffice` | backend/app/db/repo.py:83-93 | a delta is dropped by the fetched gaps exactly when it is by all gaps |
| `RangeQuery.StopsSuffice` | backend/app/db/repo.py:75-81 | inside the range the fetched stops cover exactly the instants all stops cover |
| `RangeQuery.GapsSuffice` | backend/app/db/repo.py:83-93 | inside the range the fetched gaps cover exactly the instants all gaps cover |
| `RangeQuery.PartsSuffice` | backend/app/db/repo.py:52-73 | in-range samples with the lead-in sample give the same parts as the whole history |
| `RangeQuery.RangeQueryIsLossless` | backend/app/db/repo.py:43-99 | for every history and all windows inside the range, computing on the fetched facts equals computing on everything |
| `Production.SamplesAreTold` | backend/app/db/repo.py:52-73 | end to end: the samples the OEE is computed from are, one for one, what the stream of groups told, with its good count, scrap count and theoretical cycle time |
| `Production.WhatIsMadeIsCounted` | backend/app/oee/counters.py:25-44 | end to end: where the PLC's counters are true counts modulo 2^32, the good (or scrapped) parts computed from the stored history are those the line made between the first and the last sample of the stream |
| `Production.StoredFactsAreProper` | backend/app/db/repo.py:83-99 | stored samples are at distinct times, so what the account of parts asks holds wherever the stored gaps are not empty |
| `Pareto.ComputePareto` | backend/app/oee/pareto.py:67-120 | the loop over facts and the final sort compute the specification, whose buckets `Buckets.BucketsAreTold` tells from the stops |
| `Buckets.BucketsAreTold` | backend/app/oee/pareto.py:58-120 | by station, by cause and by fault code: a key has a bucket if and only if a loss stop that shares time with the window belongs to it (no cause and the empty one to the unqualified bucket, no fault code to that of the state), and then one, with the observed time and the number of starts of exactly those stops and the share of those without a cause; shorter stops that start in the window are summed up apart |
| `Buckets.BucketsDescend` | backend/app/oee/pareto.py:116-119 | the buckets come by the metric asked for, descending, with the unqualified one last |
| `Buckets.TiesFirstCome` | backend/app/oee/pareto.py:84-119 | buckets with the same figure come in the order of their first stops |
| `Buckets.CodesRead` | backend/app/oee/pareto.py:58-64 | the text of a fault code reads back as the code, so different codes have different buckets |
| `Pareto.BucketsAddUp` | backend/app/oee/pareto.py:89-116 | the buckets add up to the loss time stop by stop, the same for the three groupings |
| `Pareto.BucketsAreRanked` | backend/app/oee/pareto.py:116-119 | the buckets come sorted with the unqualified one last, none lost or repeated |
| `Pareto.SharesAreParts` | backend/app/oee/pareto.py:107-114 | a bucket's unqualified share is at most the bucket |
| `Pareto.LossTimeIsUnion` | backend/app/oee/compute.py:108-116 | the OEE's loss time is the measure of the loss stops outside planned stops |
| `Pareto.ParetoReconciles` | backend/app/oee/pareto.py:67-120 | for one `until` the buckets never add up to less than the OEE's loss time, and to exactly it if and only if no observed instant lies in two losses or in a loss and a planned stop |
| `Windows.ShiftWindows` | backend/app/oee/windows.py:24-42 | the two loops and the sort compute the specification |
| `Windows.DayWindows` | backend/app/oee/windows.py:45-55 | the loop computes the specification |
| `Windows.EachInstantOnce` | backend/app/oee/windows.py:24-42 | when the shifts make one day, every instant is in exactly one shift of exactly one day |
| `Windows.ShiftsTile` | backend/app/oee/windows.py:24-42 | the shift windows tile the range: no gap, no overlap, nothing outside |
| `Windows.LongCyclesCoverTwice` | backend/app/oee/windows.py:24-42 | in a validated cycle of several days every instant falls in at least two shift windows |
| `Windows.ShiftsTileIff` | backend/app/oee/windows.py:24-42 | for every configuration that validation accepts, the shift windows tile a non-empty range if and only if the shifts add up to 24 hours |
| `Windows.WindowsAreShifts` | backend/app/oee/windows.py:24-42 | every shift window is a shift of some day, cut to the range and named for both |
| `Windows.TwoWholeDaysOverlap` | backend/app/oee/windows.py:24-42 | an input at which they do not: two shifts from 06:00 to 06:00, which validation accepts |
| `Windows.DayWindowsTile` | backend/app/oee/windows.py:45-55 | the production days tile the range |
| `Windows.DayWindowsAreDays` | backend/app/oee/windows.py:45-55 | every day window is a production day, from its start to the next, cut to the range |
| `Windows.ShiftsAndDaysAgree` | backend/app/oee/compute.py:183-241 | per shift, per day or in one window: combining gives the same times, parts and ratios |
| `Timeline.BuildTimeline` | backend/app/oee/timeline.py:29-46 | the indexed loop computes the specification |
| `Timeline.TimelineCovers` | backend/app/oee/timeline.py:29-46 | for any events the segments are contiguous from the first event or window start to the bound, and carry at every instant the state of the latest event |
| `Timeline.OrderIsStable` | backend/app/oee/timeline.py:29-46 | events of one instant stay in the order given, so the last has the last word |
| `Timeline.FetchIsEnough` | backend/app/db/repo.py:102-127 | the events before the lead-in and past the range would add nothing |
| `Timeline.TimelineMatchesStops` | backend/app/oee/timeline.py:29-46 | for every database the collector can produce, the non-producing segments are exactly the stored stops clipped to the window |
| `Timeline.TimelineOfEveryRun` | backend/app/db/repo.py:102-127 | the same over every run of the collector |
| `Shifts.FindNextWindow` | simulator/cell_sim/shifts.py:36-49 | the generator loop finds the first window not yet ended from two days back |
| `Shifts.NextIsEarliestIff` | simulator/cell_sim/shifts.py:44-49 | that window is the earliest open one at every instant if and only if the last break of a day ends within 72 hours of that day's start |
| `Shifts.LateOffsetIsMissed` | simulator/cell_sim/shifts.py:44-49 | an input at which it is not: an offset of 300 000 s, where the break of three days before is still to come and is passed over |
| `Shifts.ArmingIsNext` | simulator/cell_sim/cell.py:364-370 | for every calendar, arming one second past a window's end never repeats a window, and reaches the very next one if and only if that one ends more than a second later and on a day the search still looks at |
| `Shifts.WholeMinutesAreApart` | simulator/cell_sim/shifts.py:20-24 | breaks that start at whole minutes are at least a minute apart |
| `Shifts.WholeMinutesFollow` | simulator/cell_sim/shifts.py:20-24 | whole-minute breaks that end within 72 hours meet that condition at every window |
| `Engine.Host.Schedule` | simulator/cell_sim/engine.py:46-49 | the queue gains exactly one event with the next sequence number |
| `Engine.Host.SetTag` | simulator/cell_sim/engine.py:54-60 | a write is emitted, stamped now, only if it changes the image |
| `Engine.CellUnit.Enter` | simulator/cell_sim/cell.py:185-209 | the cell's and the stations' tags are written, the slot is frozen and the epoch bumped |
| `Engine.CellUnit.Resume` | simulator/cell_sim/cell.py:216-225 | break, then cap change, then dressing, then production |
| `Engine.CellUnit.StartProducing` | simulator/cell_sim/cell.py:234-246 | a frozen part is resumed, a new one is drawn otherwise |
| `Engine.CellUnit.EnterFault` | simulator/cell_sim/cell.py:252-254 | a fault with the given duration, or the drawn one for zero |
| `Engine.CellUnit.FaultNow` | simulator/cell_sim/cell.py:167-172 | refused unless producing, or for an unknown code; where no duration can be had it raises after the cell has entered the fault |
| `Engine.CellUnit.OnSlotEnd` | simulator/cell_sim/cell.py:258-273 | one weld point, published to three decimals, then the next slot or the end of the part |
| `Engine.CellUnit.CompletePart` | simulator/cell_sim/cell.py:275-300 | counters, cycle published to three decimals, weld fault or due maintenance, then what comes next; when maintenance is due is what `Wear.PartMakesDue` says |
| `Engine.CellUnit.OnInterrupt` | simulator/cell_sim/cell.py:302-313 | fault, starved or blocked |
| `Engine.CellUnit.OnStopEnd` | simulator/cell_sim/cell.py:315-343 | manual recovery, end of setup, then what comes next |
| `Engine.CellUnit.ArmBreak` | simulator/cell_sim/cell.py:345-353 | the next window is armed, at its end if it has begun |
| `Engine.CellUnit.OnBreakStart` | simulator/cell_sim/cell.py:355-362 | an idle line takes the break at once |
| `Engine.CellUnit.OnBreakEnd` | simulator/cell_sim/cell.py:364-370 | the next window is armed and a planned stop is left |
| `Engine.CellUnit.Handle` | simulator/cell_sim/engine.py:84-89 | dispatch; callbacks of earlier epochs are ignored |
| `Engine.CellUnit.OnCounterReset` | simulator/cell_sim/chaos.py:51-54 | counters and heartbeat to zero, the next reset queued on the absolute grid |
| `SimClock.HeartbeatKeepsTime` | simulator/cell_sim/cell.py:374-378 | over every run the next heartbeat is due one second after the start and one more for every beat so far; where configured, exactly one freeze event is queued, the end of one exactly while the heartbeat is frozen, and exactly one reset, at a multiple of its period |
| `SimClock.HeartbeatStarts` | simulator/cell_sim/engine.py:77-82 | every start leaves the heartbeat, and the freezes and resets that are configured, in that order of things |
| `SimClock.HeartbeatCounts` | simulator/cell_sim/cell.py:374-378 | where no reset comes between, the heartbeat has counted the beats that did not find it frozen, up to wraps |
| `SimClock.FreezeNext` | simulator/cell_sim/chaos.py:41-49 | a freeze ends after its duration, and the next one starts at the next multiple of its period |
| `SimClock.ResetNext` | simulator/cell_sim/chaos.py:51-54 | a reset clears both counters and the heartbeat and leaves the next one queued |
| `SimClock.NextIsMultiple` | simulator/cell_sim/chaos.py:35-39 | the grid of these events is absolute: the next multiple of the period, at most one period ahead |
| `Engine.Simulation.Start` | simulator/cell_sim/engine.py:77-82 | the initial publication and a state in which all the laws hold |
| `Engine.Simulation.Step` | simulator/cell_sim/engine.py:84-89 | one event, the changes it caused, and the laws kept |
| `Engine.Simulation.RunUntil` | simulator/cell_sim/engine.py:91-95 | the loop is the run of its steps, returns its whole log and stops before the first later event |
| `Engine.Simulation.ForceFault` | simulator/cell_sim/engine.py:97-107 | refused while events are due and where the cell refuses; where it raises, the cell is left in the fault with what it published undrained; the laws survive a call if and only if it is refused, or has a duration and that is not negative |
| `SimLaws.EnterOk` | simulator/cell_sim/cell.py:185-209 | entering a state silences every callback and loses no work |
| `SimLaws.PopOk` | simulator/cell_sim/engine.py:84-89 | time moves to the earliest event, never backwards and never past the end of the slot in hand |
| `SimLaws.NewEventsWait` | simulator/cell_sim/engine.py:46-49 | events due at one time are taken in the order they were queued |
| `SimLaws.ResumeOk` | simulator/cell_sim/cell.py:216-256 | whatever the cell was doing, `_resume` queues exactly the callbacks its state needs |
| `SimLaws.HandleOk` | simulator/cell_sim/cell.py:258-378 | every handler keeps the invariant, and the work in hand shrinks by exactly a finished part |
| `SimLog.HandleTalks` | simulator/cell_sim/engine.py:54-60 | no handler moves the clock; all publish actual changes only, stamped now |
| `SimLog.StartTells` | simulator/cell_sim/engine.py:77-82 | the first publication holds every tag at the start time |
| `SimRuns.NeverStuckNeverDrivenTwice` | simulator/cell_sim/cell.py:211-370 | from any start over every run, with forced faults that are refused or have a duration that is not negative: nothing queued in the past, exactly one current slot end while producing and at most one interruption, exactly one matching end in every other stop and none in a planned stop, exactly one break event |
| `SimRuns.WorkIsConserved` | simulator/cell_sim/cell.py:185-300 | over every run, with any faults, stops, setups, breaks and forced faults, time spent producing equals the cycles completed plus the progress of the part in hand |
| `SimRuns.EveryPartIsMadeOnce` | simulator/cell_sim/cell.py:234-300 | the cycles drawn, after the part in hand at the start, are exactly the cycles completed followed by the part in hand at the end |
| `SimRuns.PartsFitInTime` | simulator/cell_sim/cell.py:180-183 | parts times the theoretical cycle never exceed the producing time and the work already done |
| `SimRuns.PartsAreCounted` | simulator/cell_sim/cell.py:275-288 | a completed part moves exactly one counter by one, modulo 2^32; nothing else but a reset moves them |
| `SimRuns.CountersAgree` | simulator/cell_sim/cell.py:275-288 | over every run the counters advance by the number of parts completed, up to wraps |
| `SimRuns.LogIsFaithful` | simulator/cell_sim/engine.py:54-60 | over every run published times never go back, every change is a change, and replaying them gives the image |
| `SimImage.ImageIsTruthful` | simulator/cell_sim/cell.py:185-209 | from any start over every run the image is what is: the counters modulo 2^32, the state on the cell and all its stations, manual mode in a manual recovery alone, the code of the fault the cell is in on the cell and the faulty station alone, and an origin that a collector reads as the place the stop comes from |
| `SimImage.OutcomesAreShown` | simulator/cell_sim/cell.py:258-288 | a weld point publishes its current and its outcome, a finished part its cycle, to three decimals; nothing else moves these tags |
| `SimImage.StartShowsNothingMade` | simulator/cell_sim/cell.py:124-136 | a simulation that starts shows no cycle, no current and no bad point |
| `SimImage.ManualIsWhereTheFaultWas` | simulator/cell_sim/cell.py:320-324 | a manual recovery is shown, to a collector, at the station of the fault before it |
| `SimStops.StopsLastAsDrawn` | simulator/cell_sim/cell.py:227-256 | over every run, every stop that begins, by its own interruption, a forced fault, a finished part, the end of a fault or a free cell, ends by its own end exactly as much later as was drawn for it (or given, or configured for that kind of setup); a break alone takes over an idle line before |
| `SimStops.InterruptionsStop` | simulator/cell_sim/cell.py:302-328 | an interruption that still counts stops the cell as what it is, and the end of a fault is followed by a manual recovery exactly if one is drawn |
| `SimStops.FirstThingsFirst` | simulator/cell_sim/cell.py:216-225 | whenever the cell breaks a break is on, and whenever it begins a setup or production none is and nothing is left due: so a cap change comes before a dressing and both before a part |
| `SimStops.BreaksTakeIdleLines` | simulator/cell_sim/cell.py:355-370 | the beginning of a break takes over an idle line at once and leaves any other cell as it is; its end moves on exactly the cell that was in it |
| `SimStops.ForcedFaultStarts` | simulator/cell_sim/engine.py:97-107 | a forced fault starts exactly if it gets through and there is a duration to be had, at the time asked for or now if that has passed, and is due to end as given, or as drawn for zero |
| `SimRuns.PlannedStopIsInWindow` | simulator/cell_sim/cell.py:216-219 | a planned stop is only ever inside its window |
| `SimRuns.PlannedStopEndsOnTime` | simulator/cell_sim/cell.py:364-370 | it is left only at its window's end, by the break's end |
| `SimRuns.WindowsFollow` | simulator/cell_sim/cell.py:345-370 | the window in force changes only at its own end, always to a later one, and to the very next one exactly where the calendar lets it be followed |
| `SimRuns.BreaksNeverSkipped` | simulator/cell_sim/cell.py:345-370 | over every run the window armed after n breaks is the n-th after the first, as long as each of them can be followed |
| `SimRuns.WholeMinutesFollowForever` | simulator/cell_sim/shifts.py:20-24 | whole-minute breaks that end within 72 hours are followed forever |
| `Maintenance.MaintenanceIsNeverLost` | simulator/cell_sim/cell.py:216-232 | a cap change that is due stays due until the one live stop_end is that of a cap-change setup, a dressing until it is that of either setup; neither is due while producing |
| `Maintenance.MaintenanceComesFirst` | simulator/cell_sim/cell.py:216-246 | over every run from a state in which one is due or under way: until a cap-change setup (for a dressing, either setup) has ended it is still owed, and no cycle is drawn |
| `Wear.PartMakesDue` | simulator/cell_sim/cell.py:290-300 | what a finished part makes due, in every reachable state: with the spoilt parts in a row at the limit, the weld fault with a dressing owed; else a cap change exactly where the parts since the last one, this one included, reach the threshold; else a dressing where those since the last setup reach theirs; else nothing; and a part is begun only in the last case |
| `Wear.DueIsCounted` | simulator/cell_sim/cell.py:290-300 | the same over every run, with the parts since each setup ended, the thresholds drawn then and the spoilt parts in a row counted from the run itself |
| `Wear.WearIsCounted` | simulator/cell_sim/cell.py:330-343 | over every run the wear counts are the parts and weld points made since the last cap change, or setup, ended, and the thresholds those drawn when it did |
| `Wear.HandIsCounted` | simulator/cell_sim/cell.py:275-297 | over every run the spoilt parts in a row are those with a bad weld point completed since a part without one, or since as many as make the weld fault |
| `Wear.PartIsGoodIff` | simulator/cell_sim/cell.py:275-287 | a part is counted good if and only if all its weld points were good and it is not scrapped otherwise |
| `Wear.WeldsAreConserved` | simulator/cell_sim/cell.py:258-273 | over every run each part gets exactly its number of weld points, whatever interrupts it |
| `SimRuns.ForcedFaultIsSafeIff` | simulator/cell_sim/engine.py:97-107 | for every state and call, a forced fault leaves a sound state if and only if it is refused, or its duration is not negative and, where it is zero, one is configured |
| `SimRuns.ForcedForMinusOne` | simulator/cell_sim/engine.py:97-107 | code 202 for -1 s while producing: an event is left in the past |
| `SimRuns.ForcedWithoutDuration` | simulator/cell_sim/cell.py:252-254 | code 900 for 0 s while producing and not configured: it raises, and the cell is in a fault that nothing will end |
| `SimRestarts.RestartContinues` | simulator/cell_sim/engine.py:109-116 | save, run on, stop and start again from what was saved: to a client that stays connected published times go back nowhere if and only if nothing was published past the resume point (a clean stop publishes nothing after its save; a crash must stay within the lookahead), and its image is that of the new run in any case |
| `SimRestarts.RestartFallsBack` | simulator/cell_sim/engine.py:109-116 | counters, wear counts and thresholds are those of the save, so the counters fall back by exactly the parts completed since, up to wraps |

## Left out

- Collecting.MarkIsSafe: the mark is safe when it is written; a change that arrives later with an older timestamp can still be on time for the assembler, so the property is about what had been received.
- Watching.SessionGaps: a gap already stored under the same start is kept as it is, as in the source; downtime across repeated crashes inside the settle period is not covered, because last_seen can lag the heartbeat.
- Collecting.SessionIsAccounted: a session without a crash; what a crash finds pending in the assembler or queue is lost there as in the source, which treats everything past last_seen as unobserved. Restarts are proved on the groups committed.
- Pareto.ParetoReconciles: one `until` for both computations; the HTTP routes pass different ones (backend/app/api/routes/stops.py:92).
- Engine.Simulation.RunUntil: takes the draws of its steps as a finite list and may stop when they run out; the source's loop has no such bound.
- Shifts.NextIsEarliestIff: shift starts are distinct, which cycles longer than 24 hours would break; `shift_at` is not modelled.
- Windows.ShiftWindows: a label carries the number of the day a shift starts on where the source formats its date; dates are not modelled.
- Windows.DayWindows: the same for the labels of production days.
- OPC UA, asyncio scheduling, locks, health files, reconnection backoff, wall-clock pacing, state files and YAML: the order in which calls happen is an arbitrary sequence instead.
- Postgres beyond the meaning of each statement on rows: check constraints, migrations, notifications, and the columns a user fills in (qualification, comments); every transaction is atomic.
- Floating point: times are integers or exact reals, so `math.isclose` tolerances become equalities and `round(.., 3)` is to the nearest thousandth, a tie going to the even one.
- Random distributions and wear physics: arbitrary positive durations, cycles above the theoretical one, and an arbitrary outcome per weld point; only the integer part and point counters of the wear state are kept.
- `manual_follows` and the scrap draw: one arbitrary boolean each, so their configured probabilities and fault lists do not matter.
- OeeMeaning.PartsAreThoseSeen: asks for gaps that are not empty and samples at distinct times, which stored ones are; for others `UnseenIsDropped` gives one direction.
- `StationOfOrigin`, `CauseOfFault`, `SuggestCause` and the fault catalogue: the source's tables, entry by entry; of their entries only what `SimImage` reads back is proved.
- Tag names are a datatype: changes to unknown tags do not exist in the model.
- Anomalies of a result are one flag where the source lists texts.
- Live snapshots, weld bucketing, API routes, schemas, the WebSocket hub and the frontend: thin wrappers around what is modelled.
- `current_shift_start`: it can return a start up to one second after `now`; the timeline lemmas also cover a window that ends before it starts.
