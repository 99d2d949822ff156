# Region and tracker replication: a verified model

A region publishes what it provides (services and payloads) and answers snapshot
requests. A tracker keeps a routing table equal to what each region holds: it fetches
a snapshot of a new region in batches, queues the region's publications meanwhile,
replays them on top, merges the result and from then on applies publications directly.
This project models that protocol in Dafny and proves that the table agrees with the
regions, together with the properties of each part that the argument rests on.

`dafny verify dfyconfig.toml` checks the project.

## How it is organised

Each stateful class of the program is a Dafny class whose methods are proved equal to
functions on values; the properties are lemmas about those functions.

| part | values and laws | class |
|---|---|---|
| records, wire forms, content | `Types`, `Publication`, `Lists`, `Keyed` | |
| list with an index of iterators | `IndexedList` (node handles, order, index) | |
| region table | `RegionSpec`, `Sweep`, `RegionEffects`, `RegionHistory`, `Republish` | `RegionTable` |
| snapshot server | `Package`, `ServerSpec` | `SnapshotService` |
| snapshot client | `ReaderSpec`, `ReaderGrammar`, `ReaderEvents`, `PackageRead` | `SnapshotClientWorker`, `SnapshotClient` |
| both together | `Transfer`, `TransferResult`, `TransferRuns`, `TransferFaults`, `RegionTransfer` | |
| catch-up | `ProductSpec`, `CatchUp` | `RegionProduct`, `SubCacher`, `RegionFactory`, `PubTracker` |
| tracker table | `TrackerSpec`, `TrackerInvariant`, `TrackerModel`, `TableEffects`, `RoundRobin`, `Expiry`, `Ordering`, `TrackerGroups`, `TrackerSnapshot` | `TrackerTable` over `ServiceNodes`, `TrackerNodes` |
| the whole system | `Replication`, `Agreement`, `AgreementRuns`, `Restart`, `Ownership`, `Deliveries`, `SnapshotRuns`, `Freshness` | |

A `std::list` iterator is a handle that stays the same while its node is moved; a list is
the order of its handles and what each node holds, and an index maps keys to handles, or,
for services, names to lists of handles. A shared region pointer is a handle of the region
list.

## What the theorems assume

- **The publication channel is lossless and in order.** `CatchUp.LostMutationGoesUnnoticed`
  shows what happens otherwise.
- **`period_count >= 2`.** The client does not accept a sync request before the first
  region has begun; `TransferRuns.TransferOutcome` shows that batches of two are exactly
  what is needed.
- **Region ids are not empty.** `ReaderSpec.AbortsIff` shows the failing case.
- **The snapshot address serves the announced region, or cannot be reached.** A client that
  cannot connect is reported to its factory as a success (`src/snapshot/snapshotclient.cxx:96`),
  so a product that nobody filled may be merged: `Replication.UnstartedOutcome` says exactly
  when, and the theorems about runs allow for the region without an id that it leaves. Its
  presence makes `toSnapshotBegin` abort the tracker (`src/ritypes.cxx:95`) at the next
  snapshot, which the runs do not show.
- **A process starts again only when the tracker no longer knows its id**: after its
  predecessor's withdrawal, or, after a crash, once the region has expired or its
  synchronisation has ended without a merge. That is exactly when the intake stays in order
  (`Replication.RestartKeepsIntakeIff`). What the predecessor had published and the tracker
  had not processed by then is lost. Earlier restarts are not part of the runs:
  `Restart.RestartAgreesIff` says exactly when one is harmless while the table has the region,
  and `Restart.ConvergesAcrossRestart` and `Restart.StaleQueueIsReplayed` what one does while
  the region is being synchronised.
- **A region table keeps its observer.** `start` accepts a null one and then publishes
  nothing; the process passes its publisher (`src/region/regionactor.cxx:80`).
- **Fewer than 2^32 mutations** in the theorems about runs. Versions are 32-bit counters
  that wrap, and the replay counts modulo 2^32.
- **Republish timeouts are positive, `now >= timeout`, the clock does not go back.** The
  subtraction `now - timeout` is modelled with its 64-bit wrap-around, and
  `Sweep.EarlyClockSweepsAll` shows what it does to an early clock.
- **Full agreement holds while no single service or payload expires.** Expiry of whole
  regions is part of the runs. `Freshness.ExpiryMeansDelay` shows that a single row of a
  running region expires only if its publication is at least 5 seconds late. Under any expiry
  the table still shows nothing that the region lacks (`AgreementRuns.ShowsOnlyWhatIsThere`).
  Time stamps are compared nowhere in it: serialising drops them.

Where the code and its own notes differ the model follows the code: the version in a
region's end is not compared with the one in its begin (`TODO:6`), and between two regions
the client skips any message that decodes.

## Model

| member | source | states |
|---|---|---|
| `AgreementRuns.AgreementAlways` | src/tracker/trackertable.cxx:107-322 | End to end: in every state reached by any interleaving of starts of regions, restarts after a withdrawal or after a crash that the tracker has noticed by expiry, their events, deliveries, snapshots fetched, failed or never begun, replays, merges and region expiry, each region in the table that has an id shows the record, version and services the region had at the last of its publications that was processed, no payload the region lacks, and every payload of it that no other region announces |
| `AgreementRuns.RoutesAgree` | src/tracker/trackertable.cxx:78-88 | In those states a payload that only its region announces is routed to that region's bus |
| `AgreementRuns.KeepsAgreement` | src/tracker/pubtracker.cxx:31-90 | Agreement, and its weaker form under full expiry, is kept by every run from any agreeing state, so there is no gap between the queue phase and the direct phase, nor between two processes of one region |
| `AgreementRuns.ShowsOnlyWhatIsThere` | src/tracker/trackertable.cxx:107-524 | In every reachable state, whatever has expired, the table shows no record, version, service, endpoint or payload that the region lacked at the last of its publications that was processed |
| `AgreementRuns.RoutedIsHeld` | src/tracker/trackertable.cxx:78-88 | In every reachable state a payload that is routed at all is routed to the bus of a region that held it at the last of its publications that was processed |
| `AgreementRuns.AnswersWithRecord` | src/tracker/trackertable.cxx:69-75 | In every reachable state `getRegion` answers if and only if the region is in the table, and for a region with an id with the record and version it had at the last of its publications that was processed |
| `Ownership.LastClaimOwns` | src/tracker/trackertable.cxx:275-322 | Payloads that several regions announce: over every run without expiry of single rows, a payload belongs to a region, and is routed to its bus, if and only if some step claimed it for the region (an announcement taken by the table, or the end of a synchronisation) and no later step took it away (its removal, the region's withdrawal or expiry, or another region's claim) |
| `Ownership.StepOwns` | src/tracker/trackertable.cxx:107-322 | For every single step: the payload is the region's afterwards if and only if the step claims it or it was the region's and the step does not take it |
| `SnapshotRuns.SnapshotAlwaysReadable` | src/tracker/trackertable.cxx:325-356 | In every reachable state, if processes start with complete region records and no client that does not start brings in a region without an id, each record of the table is complete, so the tracker's own snapshot is read successfully whenever the table has a region |
| `Freshness.ExpiryMeansDelay` | src/region/regiontable.cxx:198-217 | Why single rows do not expire: with ticks at most 20 ms apart and a period of 60 seconds, a record that has waited 125 seconds at the tracker was published again by its running region at least 5 seconds ago; for payloads of any number, none removed, and services up to position 300000 |
| `Freshness.WithinTwoPeriods` | src/region/regiontable.cxx:198-217 | A record is published again within two periods of its last publication, whatever is added, and for services whatever other is removed |
| `Freshness.FreshIsCalm` | src/tracker/trackertable.cxx:484-524 | If every row is younger than 125 seconds the timer takes out whole regions only, which is the condition on runs above |
| `Replication.RestartKeepsIntakeIff` | src/tracker/pubtracker.cxx:31-41 | A process that starts again, however its predecessor ended, keeps the intake invariant if and only if its region is neither in the table nor being synchronised; this is the guard of the runs |
| `Restart.RestartAgreesIff` | src/tracker/trackertable.cxx:190-203 | If the table still has the region, the successor's announcement is taken for a heartbeat; agreement holds after it if and only if the services shown are the successor's, and the payloads owned are its own, all of them but those that another region announced; the same with `full` off for what is shown at all |
| `Restart.MatchingRestartIsSafe` | src/tracker/trackertable.cxx:190-322 | After such a restart with a match every further run keeps the intake invariant and the agreement |
| `Restart.ConvergesAcrossRestart` | src/tracker/regionsubcacher.cxx:61-99 | A restart while the region is being synchronised: whatever was queued of the predecessor, once the successor's announcement is queued a successful replay on any snapshot of the successor gives the successor after its last queued publication, unless the predecessor had reached version 2^32 - 1 |
| `Restart.StaleQueueIsReplayed` | src/tracker/regionsubcacher.cxx:61-99 | Before that announcement it fails: a service of the predecessor is replayed on the successor's snapshot |
| `Restart.CrashGoesUnnoticed` | src/tracker/trackertable.cxx:190-203 | The failing input for a table that still has the region: a successor that announces itself at version 0 with nothing in it, and its predecessor's service stays in the table |
| `AgreementRuns.CaughtUpAgrees` | src/tracker/regionfactory.cxx:43-56 | The product that is merged agrees with the region at the last publication that was queued |
| `AgreementRuns.TransferGivesProduct` | src/tracker/regionfactory.cxx:14-56 | Whatever the schedule of a transfer, with sends that fail, client timeouts and dropped workers anywhere in it, the client that started reports at most once, 0 or -1, and after a 0 the product is that of the state that was fetched: a synchronisation ends as `SyncDone` or `SyncFails` says |
| `AgreementRuns.IntakeAlways` | src/tracker/pubtracker.cxx:31-90 | The intake invariant holds in every reachable state: ids being synchronised and ids in the table are disjoint, a region that has withdrawn is in neither, syncs never exceed capacity, each queue holds the latest publications without a gap, the table is valid and holds nothing but announced regions and possibly one without an id |
| `AgreementRuns.NamelessAppearsIff` | src/snapshot/snapshotclient.cxx:71-100 | A step brings a region without an id into the table if and only if a client ends without having started while the queue counts up from version 0 |
| `AgreementRuns.OnlyAnnouncedRegions` | src/tracker/trackertable.cxx:107-118 | In every run in which no client that does not start ends such a queue, each region in the table has an id and was announced |
| `AgreementRuns.UnreachableRegionIsMerged` | src/snapshot/snapshotclient.cxx:84-96 | The failing input: a new region (version 0) is announced, the client cannot connect to its snapshot address; three steps later the table holds a region without an id, whose record is not complete, so the tracker's own snapshot is readable for nobody |
| `Replication.PerformIntake` | src/tracker/pubtracker.cxx:31-90 | Every step of every part of the system, with full expiry, restarts and clients that never start, keeps the intake invariant |
| `Replication.SyncOutcome` | src/tracker/trackertable.cxx:107-118 | When a transfer was carried out, `merge` does not meet its already-exists branch; the region is in the table afterwards if and only if the replay succeeded; a failed replay leaves the table exactly as it was |
| `Replication.UnstartedOutcome` | src/tracker/regionfactory.cxx:43-56 | When the client never started, which is reported as 0, the table is left exactly as it was if and only if the queued versions do not count 0, 1, 2, ... from the announcement or a region without an id is there already; otherwise one is added and nothing else changes |
| `Replication.ZeroReplays` | src/tracker/regionsubcacher.cxx:61-99 | On the publications of a run the replay on the unfilled product returns 0 if and only if the queued versions count 0, 1, 2, ... |
| `Replication.QueueIntake` | src/tracker/pubtracker.cxx:31-76 | Whatever publication the intake takes, the queue still ends with the latest publications in order, and the capacity is respected |
| `Deliveries.IntakeEffect` | src/tracker/pubtracker.cxx:31-76 | A publication of a region that the table does not have: an announcement opens a synchronisation if and only if there is room, with just that announcement, stamped on receipt, as its queue; while one runs every publication but the withdrawal goes behind the queue; no other synchronisation is touched |
| `Deliveries.StopWithdraws` | src/region/regiontable.cxx:187-196 | Over runs: when everything that a stopped region has published is processed, the region is neither in the table nor being synchronised |
| `Deliveries.DeliverRenews` | src/tracker/trackertable.cxx:190-310 | A publication that the table takes leaves a row with exactly the published values and the stamp of its receipt |
| `Deliveries.RenewedStays` | src/tracker/trackertable.cxx:190-524 | Over runs: a row that was renewed stays, with that stamp or a later one, until the region removes it or is gone, another region claims the payload, or the timer runs 30 seconds (regions) or 125 seconds (services, payloads) later |
| `Deliveries.PunctualStays` | src/tracker/trackertable.cxx:484-496 | Over runs: a region that does not withdraw and of which a heartbeat was processed in the 30 seconds before each run of the timer is never expired |
| `Deliveries.HeartbeatsArrive` | src/tracker/trackertable.cxx:487-487 | Heartbeats sent every second that arrive less than 29 seconds late meet that |
| `Agreement.OwnPublication` | src/tracker/trackertable.cxx:190-322 | A region's own publication, mutation or repetition, moves the tracker's view from one entry of the region's history to the next |
| `Agreement.OtherPublication` | src/tracker/trackertable.cxx:190-322 | Another region's publication leaves a region's record, version and services alone and adds no payload to it |
| `Agreement.OtherComplete` | src/tracker/trackertable.cxx:275-310 | Another region's publication takes no payload over that is exclusive to a region |
| `Agreement.MergedView` | src/tracker/trackertable.cxx:107-185 | A merged region is seen exactly as the product has it, with all its payloads |
| `RegionTable.RIRegionTable.constructor` | src/region/regiontable.cxx:6-22 | A new table has version 0, no service or payload, no observer, and repeats after 60 seconds |
| `RegionTable.RIRegionTable.AddService` | src/region/regiontable.cxx:28-46 | Refines `RegionSpec.AddedService` on the list, version and publications; 0 exactly if the service is complete and new, otherwise nothing changes |
| `RegionTable.RIRegionTable.RmService` | src/region/regiontable.cxx:48-65 | Refines `RegionSpec.RemovedService`; 0 exactly if the service was there |
| `RegionTable.RIRegionTable.AddPayload` | src/region/regiontable.cxx:67-85 | Refines `RegionSpec.AddedPayload`; 0 exactly if the payload is complete and new |
| `RegionTable.RIRegionTable.RmPayload` | src/region/regiontable.cxx:87-104 | Refines `RegionSpec.RemovedPayload`; 0 exactly if the payload was there |
| `RegionTable.RIRegionTable.UpdateTimeoutedService` | src/region/regiontable.cxx:106-126 | The loop over list nodes that it moves under its own iterator equals the sweep `SweepList`; the index stays valid |
| `RegionTable.RIRegionTable.UpdateTimeoutedPayload` | src/region/regiontable.cxx:128-148 | The same for payloads |
| `RegionTable.RIRegionTable.PubRepeated` | src/region/regiontable.cxx:198-217 | Refines `RegionSpec.Repeated`: both sweeps with their budgets, each swept record published once under the current version |
| `RegionTable.RIRegionTable.PubRegionRecord` | src/region/regiontable.cxx:219-224 | Publishes the region record with the current version and changes nothing else |
| `RegionTable.RIRegionTable.Start` | src/region/regiontable.cxx:169-185 | Announces the region once if there is an observer; without one the timers run and nothing is published; a second start is refused |
| `RegionTable.RIRegionTable.Stop` | src/region/regiontable.cxx:187-196 | Refines `RegionSpec.Stopped`: withdraws the region if it was active (`RegionEffects.LifeEffect`) |
| `RegionTable.RIRegionTable.BuildSnapshot` | src/region/regiontable.cxx:150-167 | The package is the region's begin, its services and its payloads in list order, its end with the version, framed by the snapshot's begin and end |
| `RegionHistory.StepEffect` | src/region/regiontable.cxx:28-224 | A step of an observed table that mutates raises the version by one and publishes exactly one publication, which says what changed; any other step leaves version and content alone and publishes only what the region holds, under the current version |
| `RegionHistory.VersionIsCount` | src/region/regiontable.cxx:28-104 | The version is the number of successful mutations, modulo 2^32 |
| `RegionHistory.AdvanceConsistent` | src/region/regiontable.cxx:28-224 | Every step of a run keeps the published history chained to the states: each publication repeats the last content or follows from it by one mutation |
| `RegionHistory.SameVersionSameContent` | src/region/regiontable.cxx:198-224 | Publications of one version carry one content, although heartbeats and republications share version numbers with mutations |
| `RegionHistory.VersionDeterminesContent` | src/region/regiontable.cxx:28-104 | In every run the published mutations carry consecutive versions, and folding the first of them up to the version of any state gives the content its snapshot carries |
| `RegionEffects.AdditionEffect` | src/region/regiontable.cxx:28-85 | Exactly: a complete and new record goes to the back of its list under the next version and only that is published; otherwise nothing changes and nothing is published |
| `RegionEffects.RemovalEffect` | src/region/regiontable.cxx:48-104 | Exactly: a record that is there leaves its list, the others keep value and order, under the next version, and only that is published |
| `RegionEffects.LifeEffect` | src/region/regiontable.cxx:169-224 | Exactly: a start with an observer announces the record, a heartbeat announces it again, a stop of an active region publishes its withdrawal; a second start and a second stop publish nothing |
| `RegionEffects.TickEffect` | src/region/regiontable.cxx:106-217 | Exactly: with clocks past the periods a tick takes the expired front of each list up to 100 services and P/T + 100 payloads, re-stamps it and moves it to the back, and publishes just those records, services first, under the current version |
| `Sweep.SweepTakesExpiredPrefix` | src/region/regiontable.cxx:106-148 | With a positive timeout and `now >= timeout` a sweep takes the longest expired prefix up to `maxcount`, each record once, re-stamps it and rotates it to the back, and leaves the rest in order |
| `Sweep.SweepKeepsSorted` | src/region/regiontable.cxx:106-148 | A sweep keeps a sorted list sorted, and nothing expired is left unless `maxcount` was reached |
| `Sweep.EarlyClockSweepsAll` | src/region/regiontable.cxx:106-148 | While `now < timeout` the 64-bit subtraction wraps: a sweep of two or more records, none of them expired, goes round the list until the budget is used up |
| `RegionSpec.SweepServiceContent` | src/region/regiontable.cxx:106-126 | A sweep, whatever the clock does, keeps names distinct and the content unchanged, and publishes only what is there |
| `RegionSpec.SweepPayloadContent` | src/region/regiontable.cxx:128-148 | The same for payloads |
| `Republish.RepublishDeadline` | src/region/regiontable.cxx:198-217 | With T = sec*1000/20 ticks and budget P/T + 100: while no payload is removed, every expired payload is republished within T ticks, for any P and any additions behind it |
| `Republish.ServiceDeadline` | src/region/regiontable.cxx:198-217 | An expired service at position p of the list is republished within p/100 + 1 ticks, so within S/100 + 1 of S services, whatever is added and whatever other service is removed |
| `Republish.OtherEvent` | src/region/regiontable.cxx:28-104 | Between the ticks a waiting record only moves forward, whatever else is added or, for services, removed |
| `Republish.TickBringsForward` | src/region/regiontable.cxx:198-217 | A tick publishes a payload or service or leaves it no further back; if it has expired, it is published or brought forward by the whole budget |
| `Republish.GapBound` | src/region/regiontable.cxx:198-217 | With ticks at most 20 ms apart, a record whose position m budgets cover is published again within m ticks' time after it has expired |
| `Republish.PeriodCovers` | src/region/regiontable.cxx:205-205 | The budgets of one period cover the whole list, integer division included |
| `Ordering.RegionStaysOrdered` | src/region/regiontable.cxx:28-148 | With a monotone clock every operation keeps both lists of a region sorted by time stamp |
| `Package.PackageLength` | src/region/regiontable.cxx:150-167 | A package has two items for itself, two for each region and one for each record |
| `SnapshotService.SendItems` | src/snapshot/snapshotserviceworker.cxx:15-32 | Sends the first items in order, up to the count; if a send fails its item is lost and the result claims that nothing is left |
| `SnapshotService.SnapshotService.SendPart` | src/snapshot/snapshotservice.cxx:135-148 | A batch, then a sync request exactly if something is left; the worker is kept or dropped accordingly |
| `SnapshotService.SnapshotService.OnSnapshotReq` | src/snapshot/snapshotservice.cxx:118-152 | Refines `ServerSpec.OnSnapshotReq`: repeated requesters and requesters beyond the capacity are refused, others get a reply and the first batch, whichever send fails |
| `SnapshotService.SnapshotService.OnSyncSignal` | src/snapshot/snapshotservice.cxx:154-172 | Refines `ServerSpec.OnSyncSignal`: the next batch for a known requester, nothing for an unknown one |
| `SnapshotService.SnapshotService.OnTimer` | src/snapshot/snapshotservice.cxx:184-195 | The erasing loop leaves exactly the workers that have not timed out |
| `ServerSpec.TimerKeepsIff` | src/snapshot/snapshotservice.cxx:184-195 | A worker stays, as it is, if and only if now is not later than its last batch plus the timeout; one with a later stamp than now has waited nearly 2^64 ms |
| `ServerSpec.OthersUntouched` | src/snapshot/snapshotservice.cxx:118-172 | An event of one requester leaves all other workers alone, and workers never exceed the capacity |
| `ServerSpec.RequestEffect` | src/snapshot/snapshotservice.cxx:118-172 | Exactly: who is refused and who gets the reply; a batch is the first items, at most `period_count`, as far as sends succeed; the worker stays, with the rest and the stamp of the batch, if and only if all of them succeeded and something is left, and then a sync request follows |
| `SnapshotClientWorker.SnapshotClientWorker.Start` | src/snapshot/snapshotclientworker.cxx:20-64 | Starts only an inactive client; a failed connect leaves it stopped |
| `SnapshotClientWorker.SnapshotClientWorker.Finish` | src/snapshot/snapshotclientworker.cxx:268-272 | Stops, clears the last region and reports the result once |
| `SnapshotClientWorker.SnapshotClientWorker.OnReqReadable` | src/snapshot/snapshotclientworker.cxx:238-258 | The handler equals the reader automaton's step in its state |
| `SnapshotClientWorker.SnapshotClientWorker.PullSnapshotBegin` | src/snapshot/snapshotclientworker.cxx:75-90 | The handler equals the automaton's step; a sync request is not accepted here |
| `SnapshotClientWorker.SnapshotClientWorker.PullRegionBegin` | src/snapshot/snapshotclientworker.cxx:92-116 | The handler equals the automaton's step; the region is not checked for completeness here |
| `SnapshotClientWorker.SnapshotClientWorker.PullRegionBody` | src/snapshot/snapshotclientworker.cxx:170-230 | The handler equals the automaton's step for payloads, services, the region's end, sync requests and anything else |
| `SnapshotClientWorker.SnapshotClientWorker.PullRegionOrFinish` | src/snapshot/snapshotclientworker.cxx:118-168 | The handler equals the automaton's step; unexpected messages that decode are skipped |
| `SnapshotClientWorker.SnapshotClientWorker.OnTimeoutTimer` | src/snapshot/snapshotclientworker.cxx:232-236 | A timeout ends the transfer with -1 |
| `SnapshotClientWorker.SnapshotClientWorker.OnReadable` | src/snapshot/snapshotclientworker.cxx:20-64 | A message goes to the handler that is bound, so a run of the client is a run of the automaton |
| `SnapshotClient.Run` | src/snapshot/snapshotclient.cxx:71-100 | The actor signals that it is there and then the worker's results, which are those of the reader automaton; if the worker does not start it signals 0 |
| `SnapshotClient.SnapshotClient.Start` | src/snapshot/snapshotclient.cxx:16-30 | A client that has no actor always starts; one that has is left as it is |
| `SnapshotClient.SnapshotClient.Stop` | src/snapshot/snapshotclient.cxx:33-43 | Drops the actor and the address and reports nothing |
| `SnapshotClient.SnapshotClient.OnCallerPipeReadable` | src/snapshot/snapshotclient.cxx:45-55 | Stops and hands the signal on as the result |
| `SnapshotClient.ReportedSuccess` | src/snapshot/snapshotclient.cxx:45-100 | Exactly one result is signalled if the worker has reported or did not start, and none otherwise; it is 0 if and only if the worker reported 0 or did not start |
| `ReaderSpec.CompletesAtMostOnce` | src/snapshot/snapshotclientworker.cxx:20-272 | Over any messages and timeouts the callback fires at most once per start, exactly when the client stops, and nothing changes afterwards |
| `ReaderSpec.BodyHasRegion` | src/snapshot/snapshotclientworker.cxx:118-230 | With non-empty region ids no `CHECK` fails, and `m_last_region` is non-empty exactly inside a region |
| `ReaderSpec.AbortsIff` | src/snapshot/snapshotclientworker.cxx:92-116 | A `CHECK` fails on the next event exactly if it is a message and the client is inside its first region, whose id is empty |
| `ReaderGrammar.SucceedsIff` | src/snapshot/snapshotclientworker.cxx:75-258 | With one clock reading for all messages the client reports 0 exactly on: a reply 0, the snapshot's begin, one or more regions each closed by an end with its own id, and the snapshot's end, every record complete and taken by the builder; the builder then got exactly those records in order (`test/test_snapshot.cxx:127-140` expects the refusals) |
| `ReaderEvents.ReportsSuccessIff` | src/snapshot/snapshotclientworker.cxx:75-258 | The same over events, with a clock reading for each message and timeouts: 0 is reported if and only if, before any timeout, the messages come to be such a sequence and the builder takes the records; it then has exactly those, each stamped when it was read |
| `PackageRead.PackageSucceedsIff` | src/snapshot/snapshotclientworker.cxx:75-258 | A package is accepted if and only if it holds a region, every record is complete and the builder takes them; an empty one is refused |
| `PackageRead.PackageCalls` | src/snapshot/snapshotclientworker.cxx:75-258 | An accepted package gives the builder exactly its records in list order |
| `Transfer.DoInv` | src/snapshot/snapshotservice.cxx:118-195 | Conservation: after every step of server, client or another requester and every run of the server's timer within the timeout of the last batch, items read, then in flight, then left are the package, at most one sync request or reply is under way, `|package| - left` is `min(batches * period_count, |package|)`, and the worker carries the stamp of the last batch |
| `Transfer.BatchesAreCeil` | src/snapshot/snapshotserviceworker.cxx:15-32 | A package of n items takes exactly ceil(n / period_count) batches |
| `TransferRuns.TransferOutcome` | src/snapshot/snapshotclientworker.cxx:75-116 | For every interleaving, the server's timer included as long as sync replies come within the timeout: when nothing is left to do the client has reported once, and reported 0 if and only if the request was accepted and `period_count >= 2`; the builder then got what it would get from the package in one piece |
| `TransferRuns.TransferEnds` | src/snapshot/snapshotservice.cxx:118-172 | Every step of server or client leaves less to do, so every transfer ends |
| `TransferFaults.SuccessIsWhole` | src/snapshot/snapshotservice.cxx:118-195 | With sends of the server or of the client that fail, client timeouts and the server's timer at any point, the client reports at most once, and a reported 0 implies that the whole package was read and the builder got what it would get from it in one piece |
| `RegionTransfer.RegionRoundTrip` | src/region/regiontable.cxx:150-167 | Round trip: whatever `addService` and `addPayload` built, sent in batches of two or more, arrives as the same region record, version, services and payloads in the same order; no builder call and no completeness check fails |
| `RegionTransfer.SuccessIsRegion` | src/region/regiontable.cxx:150-167 | For any batch size and any such faults a reported 0 implies that the product is the region that was packed |
| `RegionTransfer.ProductTakesGroup` | src/tracker/regionproduct.cxx:22-49 | An empty product takes the whole group of a region with distinct names and ids, and is then that region |
| `RegionTransfer.RebuiltContent` | src/ritypes.cxx:93-133 | The rebuilt region has the record and content of the table it was taken from |
| `RegionTransfer.RebuiltRows` | src/ritypes.cxx:93-133 | Row by row the rebuilt region is the one that was packed, with the receiver's stamps |
| `Publication.Received` | src/ritypes.cxx:55-63 | What the receiver makes of a publication serialises to that publication again; only the stamp is new |
| `RegionProduct.RegionProduct.AddRegion` | src/tracker/regionproduct.cxx:22-29 | Takes the first region, and later only the same one |
| `RegionProduct.RegionProduct.AddService` | src/tracker/regionproduct.cxx:31-39 | Takes a service of its region with a new name, at the back |
| `RegionProduct.RegionProduct.AddPayload` | src/tracker/regionproduct.cxx:41-49 | Takes a payload of its region with a new id, at the back |
| `RegionProduct.RegionProduct.OnRegion` | src/tracker/regionproduct.cxx:51-55 | Replaces the record of its own region |
| `RegionProduct.RegionProduct.OnRmRegion` | src/tracker/regionproduct.cxx:57-65 | Empties the product if it is that region's |
| `RegionProduct.RegionProduct.OnService` | src/tracker/regionproduct.cxx:67-82 | Updates the service and moves it to the back, or adds it; takes over the version |
| `RegionProduct.RegionProduct.OnRmService` | src/tracker/regionproduct.cxx:84-95 | Removes the service; takes over the version even if it was not there |
| `RegionProduct.RegionProduct.OnPayload` | src/tracker/regionproduct.cxx:97-111 | Updates the payload and moves it to the back, or adds it; takes over the version |
| `RegionProduct.RegionProduct.OnRmPayload` | src/tracker/regionproduct.cxx:113-124 | Removes the payload; takes over the version even if it was not there |
| `ProductSpec.ObserveContent` | src/tracker/regionproduct.cxx:51-124 | Observing an update changes the content exactly as the publication did at the region and takes over its version |
| `ProductSpec.ObserveAllDistinct` | src/tracker/regionproduct.cxx:51-124 | Names and ids stay distinct under any updates |
| `ProductSpec.ObserveEffect` | src/tracker/regionproduct.cxx:51-124 | An observed record is the last row with its own stamp, a removed one is gone, and the other rows keep value and order |
| `ProductSpec.BuildEffect` | src/tracker/regionproduct.cxx:22-49 | Exactly which builder calls the product takes, and that a taken record goes to the back and a refused call changes nothing |
| `ProductSpec.BuildAllDistinct` | src/tracker/regionproduct.cxx:22-49 | Names and ids stay distinct under any builder calls |
| `SubCacher.RegionSubCacher.constructor` | src/tracker/regionsubcacher.cxx:4-8 | The announcement is the first cached update |
| `SubCacher.RegionSubCacher.OnRegion` | src/tracker/regionsubcacher.cxx:13-19 | Queues an announcement of its own region only |
| `SubCacher.RegionSubCacher.OnRmRegion` | src/tracker/regionsubcacher.cxx:21-27 | Empties the queue when its own region is withdrawn |
| `SubCacher.RegionSubCacher.OnService` | src/tracker/regionsubcacher.cxx:29-35 | Queues a service of its own region only |
| `SubCacher.RegionSubCacher.OnRmService` | src/tracker/regionsubcacher.cxx:37-43 | Queues the removal of a service of its own region only |
| `SubCacher.RegionSubCacher.OnPayload` | src/tracker/regionsubcacher.cxx:45-51 | Queues a payload of its own region only |
| `SubCacher.RegionSubCacher.OnRmPayload` | src/tracker/regionsubcacher.cxx:53-59 | Queues the removal of a payload of its own region only |
| `SubCacher.PresentUpdate` | src/tracker/pubdata.cxx:45-70 | Hands each kind of cached update to the observer's method of that kind |
| `SubCacher.RegionSubCacher.Present` | src/tracker/regionsubcacher.cxx:61-99 | The two loops compute `Replay`: its result, its tail observed in order, and an empty queue |
| `SubCacher.ReplaySucceedsIff` | src/tracker/regionsubcacher.cxx:61-99 | `present(v)` returns 0 if and only if the queue is updates of other versions, one of version v, then v+1, v+2, ... to the end without repeat or gap; the observer then gets exactly that tail |
| `SubCacher.ReplayTail` | src/tracker/regionsubcacher.cxx:61-99 | Whatever the result, the observer gets the longest consecutive run behind the first match and nothing else |
| `CatchUp.Converges` | src/tracker/regionsubcacher.cxx:61-99 | Convergence: for any run, any contiguous part of its publications in the queue and a snapshot of any state, a successful replay leaves the product with version and content of the region after the last cached publication |
| `CatchUp.CatchUpSucceedsIff` | src/tracker/regionsubcacher.cxx:61-99 | A replay succeeds if and only if a cached publication carries the snapshot's version and only mutations are cached behind the first such; one heartbeat there makes it fail |
| `CatchUp.LostMutationGoesUnnoticed` | src/tracker/regionsubcacher.cxx:80-90 | Why the channel must be lossless: a concrete lost mutation whose heartbeat the replay accepts in its place, leaving a wrong content under the right version |
| `RegionFactory.RegionFactory.Start` | src/tracker/regionfactory.cxx:14-33 | A factory without a client always starts, with a client for the region's snapshot address, an empty product and a queue with the announcement; a second start is refused and changes nothing |
| `RegionFactory.RegionFactory.Stop` | src/tracker/regionfactory.cxx:35-41 | Drops client, queue, product and id |
| `RegionFactory.RegionFactory.OnSnapshotCompleted` | src/tracker/regionfactory.cxx:43-56 | Hands the product over exactly if 0 was reported and the replay succeeded, with the replayed updates observed; the factory is stopped either way |
| `PubTracker.PubTracker.Start` | src/tracker/pubtracker.cxx:16-24 | Takes table and capacity only while nothing is being synchronised |
| `PubTracker.PubTracker.OnRegion` | src/tracker/pubtracker.cxx:31-41 | Refines `Replication.Intake` for an announcement: queued, or a new synchronisation if there is room |
| `PubTracker.PubTracker.OnRmRegion` | src/tracker/pubtracker.cxx:43-48 | Refines `Replication.Intake`: the synchronisation is given up |
| `PubTracker.PubTracker.OnService` | src/tracker/pubtracker.cxx:50-55 | Refines `Replication.Intake`: queued for its region, dropped for others |
| `PubTracker.PubTracker.OnRmService` | src/tracker/pubtracker.cxx:57-62 | Refines `Replication.Intake`: queued for its region, dropped for others |
| `PubTracker.PubTracker.OnPayload` | src/tracker/pubtracker.cxx:64-69 | Refines `Replication.Intake`: queued for its region, dropped for others |
| `PubTracker.PubTracker.OnRmPayload` | src/tracker/pubtracker.cxx:71-76 | Refines `Replication.Intake`: queued for its region, dropped for others |
| `PubTracker.PubTracker.OnFactoryCompleted` | src/tracker/pubtracker.cxx:78-90 | Merges the caught-up product if there is one, leaves the table alone otherwise, and forgets the synchronisation either way |
| `TrackerTable.RITrackerTable.Sizes` | src/tracker/trackertable.cxx:41-51 | The three sizes are the sizes of the model's maps |
| `TrackerTable.RITrackerTable.GetRegion` | src/tracker/trackertable.cxx:69-75 | Reads the model's region map |
| `TrackerTable.RITrackerTable.RoutePayload` | src/tracker/trackertable.cxx:78-88 | Reads the model: the bus of the owning region, through the region pointer |
| `TrackerTable.RITrackerTable.RobinRouteService` | src/tracker/trackertable.cxx:91-105 | Answers with the endpoint of the first provider, which goes to the back; nothing for a name without a provider |
| `TrackerTable.RITrackerTable.FindRegionService` | src/tracker/trackertable.cxx:375-389 | Finds the region's node among a name's iterators exactly if there is one, and never meets a null region |
| `TrackerTable.RITrackerTable.PutServiceNode` | src/tracker/trackertable.cxx:225-257 | The three branches (new name, known provider, new provider) refine one `PutService` |
| `TrackerTable.RITrackerTable.PutPayloadNode` | src/tracker/trackertable.cxx:285-306 | New, updated and taken-over payloads refine one `PutPayload` |
| `TrackerTable.RITrackerTable.UpdateRegionVersion` | src/tracker/trackertable.cxx:358-373 | Sets the version of the region where it is in the list; nothing changes for an unknown id |
| `TrackerTable.RITrackerTable.Merge` | src/tracker/trackertable.cxx:107-185 | Refines `TrackerSpec.Merge`; -1 exactly if the region is there already |
| `TrackerTable.RITrackerTable.OnRegion` | src/tracker/trackertable.cxx:190-203 | Refines `TrackerSpec.OnRegion`; handed on exactly if the region is unknown |
| `TrackerTable.RITrackerTable.OnRmRegion` | src/tracker/trackertable.cxx:205-214 | Refines `TrackerSpec.OnRmRegion`; handed on exactly if the region is unknown |
| `TrackerTable.RITrackerTable.OnService` | src/tracker/trackertable.cxx:216-261 | Refines `TrackerSpec.OnService`; handed on exactly if the region is unknown |
| `TrackerTable.RITrackerTable.OnRmService` | src/tracker/trackertable.cxx:263-273 | Refines `TrackerSpec.OnRmService`, with the version update even if nothing was removed |
| `TrackerTable.RITrackerTable.OnPayload` | src/tracker/trackertable.cxx:275-310 | Refines `TrackerSpec.OnPayload`; handed on exactly if the region is unknown |
| `TrackerTable.RITrackerTable.OnRmPayload` | src/tracker/trackertable.cxx:312-322 | Refines `TrackerSpec.OnRmPayload`, with the version update even if nothing was removed |
| `TrackerTable.RITrackerTable.DoRmRegion` | src/tracker/trackertable.cxx:391-431 | Removing the region first and then, in the erasing loops, its services and payloads refines `DropRegion`; the `CHECK`s hold |
| `TrackerTable.RITrackerTable.RmServicesOf` | src/tracker/trackertable.cxx:401-419 | Each pass of the loop removes one service of the region from list and index, and none is left |
| `TrackerTable.RITrackerTable.RmPayloadsOf` | src/tracker/trackertable.cxx:421-430 | Exactly the payloads that do not point to the region are left, in order |
| `TrackerTable.RITrackerTable.DoRmService` | src/tracker/trackertable.cxx:433-458 | Removes the region's service if it has it; the name goes with its last provider; nothing changes for an unknown id |
| `TrackerTable.RITrackerTable.DoRmPayload` | src/tracker/trackertable.cxx:460-482 | Removes the payload only if the region owns it |
| `TrackerTable.RITrackerTable.OnCheckTimer` | src/tracker/trackertable.cxx:484-524 | The three loops compute `CheckTimer` |
| `TrackerTable.RITrackerTable.BuildSnapshot` | src/tracker/trackertable.cxx:325-356 | The package lists each region in list order with its own services and payloads in list order |
| `TrackerNodes.ViewValid` | src/tracker/trackertable.cxx:107-482 | Representation invariant of the nodes implies that of the table: each index maps exactly onto its list, a name's providers are non-empty, without duplicates and one per region, everything points to a live region |
| `TrackerInvariant.DoValid` | src/tracker/trackertable.cxx:107-524 | Every operation, including expiry, keeps the representation invariant |
| `TrackerInvariant.AlwaysValid` | src/tracker/trackertable.cxx:107-524 | The invariant holds after any sequence of operations |
| `TrackerModel.TableRefinesModel` | src/tracker/trackertable.cxx:107-322 | The table refines the model of three maps under every operation but the expiry timer, which `Expiry.TimerIsExact` describes: the last announcer of a payload wins, only the owner removes it, a publication of an unknown region changes nothing |
| `TrackerModel.AbsDropRegion` | src/tracker/trackertable.cxx:391-431 | On the model, removing a region removes exactly its record, endpoints and payloads |
| `TableEffects.PayloadEffect` | src/tracker/trackertable.cxx:275-310 | Row by row: the payload is the last row with the announcing region and the stamp of the publication, no other row has its id, the other rows keep value and order, the region has the version |
| `TableEffects.ServiceEffect` | src/tracker/trackertable.cxx:216-261 | The same for a service, with its endpoint; a new provider queues at the back of the name |
| `TableEffects.RegionEffect` | src/tracker/trackertable.cxx:190-214 | An announcement puts the new record with its stamp last; a withdrawal takes exactly the rows of the region |
| `TableEffects.RemovalEffect` | src/tracker/trackertable.cxx:263-322 | A removal takes exactly the region's row and sets the version |
| `TableEffects.UnknownEffect` | src/tracker/trackertable.cxx:190-322 | No publication of a region that is not in the table changes it |
| `TableEffects.MergeEffect` | src/tracker/trackertable.cxx:107-185 | A merged product's rows go to the back in their order with their stamps; of the rows before only payloads that are taken over leave |
| `TableEffects.KnownIsNotMerged` | src/tracker/trackertable.cxx:107-113 | A region that is in the table is not merged |
| `TableEffects.RobinEffect` | src/tracker/trackertable.cxx:91-105 | Asking for a service changes nothing but the order of that name's providers, by one turn |
| `TableEffects.TimerEffect` | src/tracker/trackertable.cxx:484-524 | In numbers: the timer takes the front of the regions that has waited 30000 ms, at most 3, with all their rows, then the fronts of services and payloads that have waited 125000 ms, at most 100 each; everything else stays as it is |
| `RoundRobin.RobinIsFair` | src/tracker/trackertable.cxx:91-105 | Of k providers, k calls ask each exactly once and restore the order, whatever else happens between them as long as no provider joins or leaves |
| `RoundRobin.OpProviders` | src/tracker/trackertable.cxx:91-105 | A call moves the first provider to the back; any other operation that keeps the set of providers keeps their order |
| `RoundRobin.JoinsAtBack` | src/tracker/trackertable.cxx:240-257 | A provider that announces again keeps its place, a new one queues at the back |
| `RoundRobin.RemovalIsExact` | src/tracker/trackertable.cxx:391-431 | After a removal nothing mentions the region, a name is indexed exactly if it has another provider, and all other entries keep value and relative order in all lists and round robins |
| `TrackerNodes.DropServicesIs` | src/tracker/trackertable.cxx:401-419 | The erasing loop over the services, from any position, equals filtering the list and every round robin |
| `Expiry.TimerIsExact` | src/tracker/trackertable.cxx:484-524 | The timer takes the longest expired prefix of each list up to 3, 100 and 100, one per iteration, after everything of an expired region went with it |
| `Expiry.TimerTakesOnlyExpired` | src/tracker/trackertable.cxx:484-524 | Only what is expired or belongs to an expired region goes |
| `Expiry.TimerTakesAllExpired` | src/tracker/trackertable.cxx:484-524 | On sorted lists nothing expired remains unless a limit was reached |
| `Ordering.TableStaysOrdered` | src/tracker/trackertable.cxx:190-524 | With a monotone clock publications, removals, routing and expiry keep the three lists sorted |
| `Ordering.MergedRows` | src/tracker/trackertable.cxx:107-185 | A merge of a new region appends the record, its services and its payloads; of the rows before only the payloads that are taken over leave, and the others keep their order |
| `Ordering.MergeKeepsOrderIff` | src/tracker/trackertable.cxx:107-185 | For any record, services and payloads: a merge keeps the three lists sorted if and only if the region is known or the rows it appends are sorted, not later than the clock and not stamped before a row that stays |
| `Ordering.ProductKeepsOrderIff` | src/tracker/trackertable.cxx:107-185 | For a product, with distinct names and ids, that is: its record is not stamped before a region of the table, its services and payloads are sorted and not later than the clock, no service is stamped before one of the table, no payload before one that stays with its owner |
| `Ordering.MergeBreaksOrder` | src/tracker/trackertable.cxx:115-118 | A concrete region stamped earlier is appended behind a later one |
| `TrackerGroups.SnapshotLength` | src/tracker/trackertable.cxx:325-356 | The tracker's package has 2 + 2 * regions + services + payloads items |
| `TrackerGroups.GroupsAre` | src/tracker/trackertable.cxx:325-356 | One group for each region in list order with its record as it is, and the services and payloads of exactly its rows in the order of the table's lists |
| `TrackerSnapshot.RowsAreGrouped` | src/tracker/trackertable.cxx:325-356 | Every service and payload is in the group of its region and the groups hold nothing else |
| `TrackerSnapshot.TrackerSnapshotReadable` | src/snapshot/snapshotclientworker.cxx:75-258 | A client reads the tracker's snapshot if and only if there is a region, every record is complete and its builder takes them |
| `TrackerSnapshot.TrackerRoundTrip` | src/tracker/trackertable.cxx:325-356 | Sent in batches of two or more, the snapshot gives a reader, for each region in list order, the record of its row and then the services and the payloads of its rows in list order, stamped by the reader, and nothing else |

## Left out

- ZeroMQ sockets, loops, actors, envelopes and protobuf encoding: messages are a datatype, channels are sequences, timers are steps with a given `now`. A typed receive that gets another message fails.
- The `CHECK`s of `toProtobuf` on empty ids, addresses and names (`src/ritypes.cxx:27-34`, `:95`): sending an incomplete region record aborts the program, which the model does not show.
- `SnapshotFeature` and the thread of the snapshot service: `buildSnapshot` is one atomic step.
- Publisher, subscriber and actor plumbing, sessions, C API and configuration: forwarding only.
- Bus code (`busprocesser.cxx`, `busbroker/*`, `bussender.cxx`, `busmsgreply.cxx`, `busreceiver.cxx`): unfinished input and output around a small queue.
- `fromregionfactory.cxx` and `subcacher.cxx`: not part of the build.
- `RITrackerTable::services()` returns the names in the order of a hash table; only which names are indexed is modelled.
- SnapshotClient.Run: the thread and its pipe are a list of events in and a list of signals out; stopping the client from outside drops the rest of both.
- RegionTable.RIRegionTable.Start: its timers always start; a second observer is not told apart from the first, as only whether there is one matters.
- Freshness.ExpiryMeansDelay: region and tracker read one clock, and the steps of `Replication` carry no global time; the two are connected by `Freshness.FreshIsCalm`, row by row.
- Lifetime of C++ objects, such as references into erased nodes or a factory erased inside its own callback.
- SnapshotService.SnapshotService.OnSyncSignal: the map of workers holds values instead of worker objects, so sharing of a worker is not modelled.
- SnapshotClientWorker.SnapshotClientWorker.OnReadable: the builder is a function of the calls it took before, which decides what it takes; `RegionTransfer` uses it with the region product.
- PubTracker.PubTracker.OnFactoryCompleted: the weak pointer to the table is a nullable reference, and the factory's callback is one method that completes, merges and erases.
- TransferRuns.TransferOutcome: one clock reading stands for all of the client's, no send fails and no timeout fires in it, so it says when a transfer succeeds; `TransferFaults.SuccessIsWhole` covers those runs and says what a success means.
- AgreementRuns.AgreementAlways: publications and completions are atomic steps of the tracker, as its single loop makes them.
- Milliseconds are unbounded except in `now - timeout`: the sum of a time stamp and a timeout does not wrap.
