# Axent: verified models of its concurrent protocols

Axent is a device-control daemon. It discovers devices through adapters, routes
control commands to them, streams their audio and video to subscribers and
updates their firmware. Its hard parts are protocols with several independent
lifetimes: the physical session, the stream generation, the logical lease, the
device context and the control operation.

This project models those protocols in Dafny and proves what they keep. A
protocol is a state machine whose steps are the regions the C++ code runs under
one lock; peer replies, clock readings and thread choices are inputs. A theorem
about "every run" quantifies over every sequence of steps, with disabled steps
doing nothing. Where the C++ code updates fields or loops in place, a class or a
method does the same and is proved to take exactly the specified step.

Safety alone would also hold of a protocol that does nothing. Beside the
invariants there are therefore laws that say what a run must do, over its calls
and inputs alone: which streams are open, which frame is handed out, which
request is granted, what each answer of the peer leads to.

`dafny verify dfyconfig.toml` checks the whole project.

| part | files |
|---|---|
| media stream subscription of the host | `StreamSubscription`, `SubscriptionTrace`, `SubscriptionAccounting`, `SubscriptionGaps`, `SubscriptionHistory` |
| media lifecycle of the AXTP leaf adapter | `MediaLifecycle`, `MediaEvents`, `MediaConsistency`, `MediaRuns`, `MediaOrder`, `MediaFences`, `MediaAdapter`, `MediaTable`, `MediaDelivery` |
| frame-rate change | `VideoReconfigure`, `ReconfigureRuns`, `ReconfigureProgress`, `ReconfigureTearDown`, `ReconfigureVerdict` |
| discovery, routing and request lanes | `DeviceTable`, `Discovery`, `EndpointClaims`, `DiscoveryExact`, `DeviceManager`, `Routing`, `LaneScheduler`, `LaneHistory` |
| control operations and leases | `ControlOperation`, `ControlQueue`, `ControlHistory`, `DeviceContexts`, `LeaseRegistry`, `LeaseHistory`, `ReplyTargets` |
| sequential algorithms | `WideText`, `FirmwareUpdate`, `MaintenanceLeases` |
| shared | `Wrappers`, `Ordering` |

## Where the code does not keep what one would expect

Each of these is proved as an exact condition, with a run that shows the failure.

- A frame larger than the byte limit of a subscription is dropped together with
  everything queued, so no frame is left to carry the Discontinuity flag and the
  next frame is delivered unflagged (`SubscriptionGaps`). Gaps stay flagged if
  and only if no such frame is accepted.
- Session recovery clears the stream table without holding the session. If the
  owner has entered a stream in the table but not yet queued its Opened event,
  Closed precedes Opened; if the owner reopens an id before the worker has
  queued its Closed event, an open id is opened again (`MediaRuns`).
- The same recovery clears the frame-rate state. Inside a tick of another
  session, the tick goes on with its copy of the change and reports an end for a
  change that no longer exists (`ReconfigureTearDown`).
- Stopping the WebSocket server from inside a request forgets the lane that
  request is running in; after a restart the lane can run twice (`LaneScheduler`).
- Control calls that an expiry or a cancellation found queued are in neither
  queue nor slot until they are completed (`ControlQueue`).
- Route keys join adapter and device id with a colon, so devices of two adapters
  can share a lane if and only if one adapter name followed by a colon begins
  the other (`Routing`). This only makes them wait for each other.

## Model

| member | source | states |
|---|---|---|
| `StreamSubscription.PublishFrameExact` | src/host/axent_host.cpp:727-779 | publishing a frame, with all its drops, notice and mark, leaves the frame and byte counters equal to what is queued |
| `StreamSubscription.PublishEventExact` | src/host/axent_host.cpp:668-725 | publishing a stream event keeps the counters equal to what is queued |
| `StreamSubscription.CancelExact` | src/host/axent_host.cpp:781-845 | cancelling keeps the counters equal to what is queued |
| `StreamSubscription.TakeExact` | src/host/axent_host.cpp:1055-1069 | taking an item keeps the counters equal to what is queued |
| `StreamSubscription.BuildClosingTail` | src/host/axent_host.cpp:988-1026 | the two loops over the active and the delivered streams build the closing tail in stream-id order |
| `StreamSubscription.Core.PublishStreamEvent` | src/host/axent_host.cpp:668-725 | in-place update equal to the event step: a reopened id is closed first, a stale close and a zero generation are ignored |
| `StreamSubscription.Core.DropOldestFrame` | src/host/axent_host.cpp:924-938 | removes exactly the oldest queued frame and moves its bytes from queued to dropped |
| `StreamSubscription.Core.MarkNextFrameDiscontinuous` | src/host/axent_host.cpp:940-948 | flags the oldest queued frame and nothing else |
| `StreamSubscription.Core.EnqueueDropEvent` | src/host/axent_host.cpp:950-972 | updates the last notice that no stream event follows, or inserts one before the oldest frame |
| `StreamSubscription.Core.PublishMediaFrame` | src/host/axent_host.cpp:727-779 | in-place update equal to the frame step, with the drop loop |
| `StreamSubscription.Core.CancelFrom` | src/host/axent_host.cpp:781-845 | in-place update equal to the cancel step: closing tail and terminal notice, or everything cleared when the sink cancels from its own callback |
| `StreamSubscription.Core.TakeNext` | src/host/axent_host.cpp:1055-1069 | hands out the front item and records which streams the sink has seen opened |
| `StreamSubscription.Core.FinishItem` | src/host/axent_host.cpp:1095-1108 | a finished item counts as delivered; the terminal notice ends the subscription |
| `SubscriptionTrace.ClosingTailClosesAll` | src/host/axent_host.cpp:988-1025 | from any delivered set, the closing tail is a legal continuation after which no stream is open |
| `SubscriptionTrace.EveryRunIsLegal` | src/host/axent_host.cpp:668-845 | on every interleaving of publish, delivery and cancel the sink sees per id alternating Opened and Closed with equal keys, each frame inside the interval of its exact key, nothing after SubscriptionClosed; and the streams it has open are the delivered set |
| `SubscriptionTrace.OutsideCloseLeavesNothingOpen` | src/host/axent_host.cpp:988-1069 | after a close-streams cancel from outside a callback, whatever follows, the drained trace leaves no stream open |
| `SubscriptionTrace.ExecuteLegal` | src/host/axent_host.cpp:668-845 | the inductive form: replaying the queue from the delivered streams gives the active streams in every reachable state |
| `SubscriptionAccounting.AnnounceTells` | src/host/axent_host.cpp:950-972 | announcing keeps notices before frames and rising, and makes the new totals the last word |
| `SubscriptionAccounting.EveryRunAccounts` | src/host/axent_host.cpp:727-779 | on every run each delivered frame is the accepted frame at index frames seen + frames announced dropped, notice totals never decrease, counters are exact, limits hold, no notice waits behind a frame, and accepted = delivered + dropped + queued |
| `SubscriptionGaps.SurvivorUnlessOversize` | src/host/axent_host.cpp:762-772 | a publish that drops leaves a frame queued if and only if its own frame fits the byte limit, and then the oldest one carries Discontinuity |
| `SubscriptionGaps.GapsAreMarked` | src/host/axent_host.cpp:762-772 | when no frame exceeds the byte limit, every gap in the delivered frames is flagged on the frame after it, on every run |
| `SubscriptionGaps.OversizeGapUnmarked` | src/host/axent_host.cpp:762-772 | from every state in which gaps were marked so far, busy or idle, an accepted frame over the byte limit leads to an unflagged gap on some continuation without another such frame |
| `SubscriptionGaps.MarkingExact` | src/host/axent_host.cpp:727-779 | publishing an accepted frame keeps every gap flagged, on every continuation without an oversize frame, if and only if the frame fits the byte limit |
| `SubscriptionGaps.EveryRunMarksExactly` | src/host/axent_host.cpp:727-779 | the same if-and-only-if for every run that published no oversize frame so far |
| `SubscriptionGaps.OversizeLeavesAnUnmarkedGap` | src/host/axent_host.cpp:762-772 | such a gap is reachable with one open stream, a byte limit of one and a two-byte frame |
| `SubscriptionHistory.EveryRunFollows` | src/host/axent_host.cpp:668-779 | from the published calls alone, on every run until it is cancelled: the open streams are those the effective Opened and Closed events leave open, the accepted frames are those published under an open key, and the events handed over plus those queued are exactly the effective events in order, each reopened id closed first |
| `SubscriptionHistory.DrainedSinkAgrees` | src/host/axent_host.cpp:668-725 | once the queue of a live subscription is empty, replaying what the sink got gives exactly the streams the publishers have open |
| `SubscriptionHistory.QueueIsDelivered` | src/host/axent_host.cpp:1055-1108 | a sink that keeps taking gets everything queued, in order |
| `SubscriptionHistory.CancelSettles` | src/host/axent_host.cpp:781-845 | the first cancel: from the sink's own callback nothing more is queued; from outside the sink gets the closing events, if asked for, then SubscriptionClosed as the last item, and has no stream open |
| `SubscriptionHistory.SilencedStaysSilent` | src/host/axent_host.cpp:806-826 | after a cancel from inside the callback nothing is delivered any more, whatever follows |
| `SubscriptionHistory.DropsNoMoreThanNeeded` | src/host/axent_host.cpp:753-772 | a publish keeps the longest run of newest frames that fits both limits |
| `MediaRuns.EveryRunIsLegal` | src/adapters/axtp_adapter.cpp:5302-5339 | on every race-free run adapter events alternate Opened(g) and Closed(g) per id with strictly increasing g, every frame with a generation lies inside its interval, and once all is handed out exactly the active streams are open |
| `MediaConsistency.ApplyConsistent` | src/adapters/axtp_adapter.cpp:2804-2908 | every step (open, terminal event, recovery and reconfigure closes, clears, commit, delivery, bind) keeps: handed out + queued + unqueued events replay to the stream table |
| `MediaRuns.RacingTakeExact` | src/adapters/axtp_adapter.cpp:2578-2595 | the recovery worker's clear of the table keeps the events legal if and only if no open is between its table update and its queued Opened event |
| `MediaRuns.EnqueueExact` | src/adapters/axtp_adapter.cpp:5330-5339 | the owner's events may be queued if and only if they open no id whose Closed event the recovery worker still holds |
| `MediaRuns.RacesAreReachable` | src/adapters/axtp_adapter.cpp:3739-3751 | concrete runs up to each of the two races, after which the queued events are illegal |
| `MediaConsistency.CurrentIsOpen` | src/adapters/axtp_adapter.cpp:5551-5559 | a frame that passes the generation check lies inside the open interval its own generation has in the events handed out |
| `MediaEvents.CloseCapturedReplays` | src/adapters/axtp_adapter.cpp:3005-3017 | closing the captured descriptors emits legal closes for exactly those whose generation is still active |
| `MediaEvents.CloseAllReplays` | src/adapters/axtp_adapter.cpp:2578-2588 | clearing closes each active stream once |
| `MediaOrder.SelectByKind` | src/adapters/axtp_adapter.cpp:5583-5610 | the lifecycle fence sends all frames of a kind the same way and keeps their order |
| `MediaOrder.EveryRunKeepsArrivalOrder` | src/adapters/axtp_adapter.cpp:5561-5627 | on every run, races included, frames of one kind reach the callback in arrival order |
| `MediaFences.TokenFence` | src/adapters/axtp_adapter.cpp:5533-5549 | a frame whose token was taken under a binding passes the binding check after any steps if and only if none of them bound, effectively unbound or reset the lease and the frame names that lease |
| `MediaFences.EqualEpochsSameBinding` | src/adapters/axtp_adapter.cpp:2507-2541 | two moments of a run with equal epochs have the same binding |
| `MediaFences.OpenFence` | src/adapters/axtp_adapter.cpp:5226-5267 | on every run an in-flight open publishes nothing and queues exactly one orphan close if and only if a relevant terminal event in its window named no stream, an active stream, or the id the open returns (and the recovery worker has not cleared since); otherwise it publishes exactly that stream |
| `MediaFences.ForeignTerminalHarmless` | src/adapters/axtp_adapter.cpp:2834-2851 | a terminal event for any other inactive id does not affect the open |
| `MediaFences.GenerationNamesOneDescriptor` | src/adapters/axtp_adapter.cpp:4371-4397 | after any steps an active stream with the id and generation of a named descriptor is that descriptor |
| `MediaFences.CapturedStaysItself` | src/adapters/axtp_adapter.cpp:4371-4397 | for every run and every descriptor captured from its stream table: after any further steps an active stream with that id and generation is the captured one |
| `MediaTable.TerminalExact` | src/adapters/axtp_adapter.cpp:2800-2908 | a heeded terminal event takes exactly one entry out of the table, the named stream or the least concerned id, and stages exactly its Closed event; if none is concerned it only stops its kind or waits for an open to return the named id |
| `MediaTable.TableExact` | src/adapters/axtp_adapter.cpp:2578-3017 | for every state and step: which ids are in the table afterwards and what they stand for, over the table and the step's inputs |
| `MediaTable.NothingAfterLeaving` | src/adapters/axtp_adapter.cpp:5551-5559 | on every run, whatever takes a stream out of the table, no frame of its generation is handed out afterwards |
| `MediaTable.TerminalIsAnnounced` | src/adapters/axtp_adapter.cpp:2886-2908 | a terminal event that ends a stream, queued and handed out: its Closed event is the last thing told, with no frame of the stream on the way |
| `MediaTable.StoppedExact` | src/adapters/axtp_adapter.cpp:2800-2908 | automatic opens of a kind are stopped and resumed exactly by its events, its opens and the session |
| `MediaTable.OpeningExact` | src/adapters/axtp_adapter.cpp:4773-4821 | an open starts if and only if none is under way and its kind is known, not stopped and not held back by a reconfiguration; it ends only when answered and released |
| `MediaDelivery.HeldFrameExact` | src/adapters/axtp_adapter.cpp:5533-5559 | on every race-free run a held frame is handed out if and only if its lease and token are the present ones and its generation is zero or the one left open by all events handed out, queued and on their way |
| `MediaDelivery.StampExact` | src/adapters/axtp_adapter.cpp:5422-5475 | on every race-free run a frame gets the last generation opened under its id, the present lease, and the kind of the open stream, unknown if closed, legacy if never opened |
| `MediaDelivery.EveryFrameAccounted` | src/adapters/axtp_adapter.cpp:5561-5700 | on every run each received frame is in exactly one place, waiting, held or handed out, if and only if no step lost it: a drop of its queue, or a delivery check it did not pass |
| `MediaAdapter.FindTerminal` | src/adapters/axtp_adapter.cpp:2804-2832 | the search over the ordered table finds the named stream, or the first of the event's kind and source |
| `MediaAdapter.CollectCloses` | src/adapters/axtp_adapter.cpp:2581-2588 | the loop over the ordered table collects one Closed event per active stream |
| `MediaAdapter.LeafMedia.ResolveOpen` | src/adapters/axtp_adapter.cpp:5226-5339 | one orphan close, or a fresh generation in the table with its events staged |
| `MediaAdapter.LeafMedia.PublishStream` | src/adapters/axtp_adapter.cpp:5302-5339 | the table entry is replaced and Closed for the old one precedes Opened for the new one |
| `MediaAdapter.LeafMedia.ProcessTerminal` | src/adapters/axtp_adapter.cpp:2800-2908 | a terminal event closes its stream, becomes a candidate of the open in flight, or is ignored |
| `MediaAdapter.LeafMedia.ClosePreviousStreams` | src/adapters/axtp_adapter.cpp:3005-3017 | closes the captured streams that still have the captured generation |
| `MediaAdapter.LeafMedia.ClearStreams` | src/adapters/axtp_adapter.cpp:2578-2621 | empties the table and everything that belongs to the session |
| `MediaAdapter.LeafMedia.TakeForRecovery` | src/adapters/axtp_adapter.cpp:2581-2588 | empties the table while another thread may own the session |
| `MediaAdapter.LeafMedia.QueueRecovered` | src/adapters/axtp_adapter.cpp:2624-2642 | queues the worker's Closed events in order |
| `MediaAdapter.LeafMedia.QueueEvents` | src/adapters/axtp_adapter.cpp:2624-2642 | queues the staged events in order |
| `MediaAdapter.LeafMedia.Receive` | src/adapters/axtp_adapter.cpp:5422-5475 | stamps a frame with the lease, the token and the generation and kind of its stream |
| `MediaAdapter.LeafMedia.TakeBatch` | src/adapters/axtp_adapter.cpp:5571-5613 | splits the ingress queue at the lifecycle fence, both parts in order |
| `MediaAdapter.LeafMedia.PushBatch` | src/adapters/axtp_adapter.cpp:5614-5625 | appends the batch behind the queued events |
| `MediaAdapter.LeafMedia.PopItem` | src/adapters/axtp_adapter.cpp:5648-5678 | events go to the callback at once, a frame is held for the delivery check |
| `MediaAdapter.LeafMedia.DeliverFrame` | src/adapters/axtp_adapter.cpp:5680-5700 | a frame is delivered only if binding, token and generation are current |
| `MediaAdapter.LeafMedia.DrainCallbacks` | src/adapters/axtp_adapter.cpp:5629-5700 | the loop hands out exactly the queued events and the frames that are current, in queue order, and leaves nothing behind |
| `MediaAdapter.LeafMedia.CommitPending` | src/adapters/axtp_adapter.cpp:5561-5627 | both halves of a commit: frames no open holds back go behind the queued events, the others stay in order |
| `MediaAdapter.LeafMedia.CompleteOpen` | src/adapters/axtp_adapter.cpp:5226-5339 | an answered open up to its queued events |
| `MediaAdapter.LeafMedia.BindSession` | src/adapters/axtp_adapter.cpp:2506-2510 | the epoch advances with the new binding |
| `MediaAdapter.LeafMedia.UnbindSession` | src/adapters/axtp_adapter.cpp:2529-2556 | only the binding it names ends; then pending frames are dropped |
| `MediaAdapter.LeafMedia.DropPending` | src/adapters/axtp_adapter.cpp:2457-2486 | frames are dropped from both queues, events stay |
| `ReconfigureRuns.EveryRunIsSound` | src/adapters/axtp_adapter.cpp:4326-4675 | on every run without a teardown inside a tick, and with sessions opened only after a teardown, the action log, which records every answer of the peer, obeys the monitor (nothing opened before all captured streams are closed, a refused close or open followed at once by the failure or fallback it calls for, at most one fallback, success only with everything due open) and agrees with the session on what is pending |
| `ReconfigureRuns.EndsOnce` | src/adapters/axtp_adapter.cpp:4347-4369 | an accepted change ends at most once |
| `ReconfigureRuns.OutcomeRate` | src/adapters/axtp_adapter.cpp:4655-4672 | a change ends Applied with the requested rate, RolledBack or Failed with the previous rate |
| `ReconfigureRuns.ClosedBeforeOpen` | src/adapters/axtp_adapter.cpp:4475-4515 | every captured stream was answered closed before any replacement is opened |
| `ReconfigureRuns.FallsBackOnce` | src/adapters/axtp_adapter.cpp:4561-4644 | the change falls back at most once |
| `ReconfigureRuns.AppliedMeansOpened` | src/adapters/axtp_adapter.cpp:4531-4673 | a change that was applied never fell back, and the peer has opened its video and, where due, its audio |
| `ReconfigureRuns.SuccessMeansOpened` | src/adapters/axtp_adapter.cpp:4531-4673 | a change ends applied or rolled back only with the video, and audio where still due, opened since it last started over |
| `ReconfigureRuns.FailsOnlyWhenRefused` | src/adapters/axtp_adapter.cpp:4399-4644 | a change falls back or fails only at once after the peer refused something or let a close expire; it falls back only after a failed open |
| `ReconfigureRuns.RefusalIsHeeded` | src/adapters/axtp_adapter.cpp:4531-4644 | after a failed open the next action is the fallback, the failure or the teardown of that change |
| `ReconfigureVerdict.TickFollowsAnswers` | src/adapters/axtp_adapter.cpp:4326-4675 | whatever the state of a change, the answers and clock readings of a tick alone decide whether it waits, fails, falls back or succeeds, and the rate, the operation and the last action are the ones that verdict calls for |
| `ReconfigureVerdict.RequestExact` | src/adapters/axtp_adapter.cpp:2256-2368 | exactly which requests start a change, and with what; every other request changes nothing |
| `ReconfigureRuns.SetParamsSound` | src/adapters/axtp_adapter.cpp:2294-2368 | accepting a request starts a change only when none is pending |
| `ReconfigureRuns.OpenSessionExact` | src/adapters/axtp_adapter.cpp:4118-4128 | opening a session with the configured rate keeps the protocol state sound if and only if no change is pending; the code tears the old session down first |
| `ReconfigureProgress.TickProgress` | src/adapters/axtp_adapter.cpp:4326-4675 | a tick ends the change or lowers the rank (fallback left, stage, time to the close deadline), whatever the peer answers |
| `ReconfigureProgress.EndsWithinTwoRounds` | src/adapters/axtp_adapter.cpp:4326-4675 | a pending change is no longer pending after 2 * 5003 ticks at increasing clock readings |
| `ReconfigureProgress.AcceptedChangeEnds` | src/adapters/axtp_adapter.cpp:2294-4675 | a request accepted in any sound state: after 2 * 5003 later ticks the last action is the end of exactly this change, and the session has the requested rate if it was applied and the previous rate otherwise |
| `ReconfigureProgress.WholeTickSound` | src/adapters/axtp_adapter.cpp:4326-4675 | an uninterrupted tick keeps the log legal |
| `ReconfigureProgress.VideoSession.SetParams` | src/adapters/axtp_adapter.cpp:2256-2368 | the status of each refusal, in order; an unchanged rate succeeds without a change; a refusal changes nothing |
| `ReconfigureProgress.VideoSession.AdvanceCloses` | src/adapters/axtp_adapter.cpp:4399-4511 | sends or polls both closes, sets the deadline once, fails on error, failed state or deadline |
| `ReconfigureProgress.VideoSession.AdvanceVideo` | src/adapters/axtp_adapter.cpp:4531-4588 | reopens the video stream, falls back once, or fails |
| `ReconfigureProgress.VideoSession.AdvanceAudio` | src/adapters/axtp_adapter.cpp:4590-4673 | reopens the audio stream if there was one and ends the change, falls back once with the replacement captured, or fails |
| `ReconfigureProgress.VideoSession.AdvanceReconfigure` | src/adapters/axtp_adapter.cpp:4326-4675 | a whole tick with its early returns equals the steps of the protocol in order |
| `ReconfigureTearDown.TearDownExact` | src/adapters/axtp_adapter.cpp:2558-2576 | a teardown keeps the log legal on every continuation if and only if no tick is under way |
| `ReconfigureTearDown.TearDownInsideTick` | src/adapters/axtp_adapter.cpp:3739-3751 | a first request and the start of its first tick reach a state in which a teardown breaks the log |
| `Discovery.UpsertLookup` | src/core/device_manager.cpp:48-87 | an accepted row is stored with its bound endpoint kept, a refused one changes nothing, and no other row changes |
| `Discovery.UpsertExclusive` | src/core/device_manager.cpp:56-68 | storing a row never makes two adapters share an endpoint |
| `Discovery.ReconcileKeeps` | src/core/device_manager.cpp:89-262 | for every table and rows, keys stay unique and no two adapters come to share an endpoint |
| `Discovery.EndpointStable` | src/core/device_manager.cpp:142-253 | a bound endpoint never changes while its row exists |
| `Discovery.AbsentEndOffline` | src/core/device_manager.cpp:255-260 | every row of the adapter that was not discovered ends offline with the given reason |
| `Discovery.StatusTellsTable` | src/core/device_manager.cpp:207-253 | an accepted result means the row is stored with the endpoint its key settled on; any other means the stored row is unchanged |
| `EndpointClaims.SoleClaimantHolds` | src/core/device_manager.cpp:192-240 | a sole present claimant of an endpoint no other adapter holds ends as its only holder, stale rows that held it are gone |
| `EndpointClaims.ManyClaimantsNeverResolve` | src/core/device_manager.cpp:192-253 | with two or more claimants the endpoint never resolves to a device of that adapter |
| `EndpointClaims.HolderClaims` | src/core/device_manager.cpp:142-190 | a present device whose row holds an endpoint counts as claimant, even when its rows are contradictory |
| `DiscoveryExact.UpsertExact` | src/core/device_manager.cpp:48-87 | each status of an upsert happens exactly on its own condition over the table and the row |
| `DiscoveryExact.ReconcileExact` | src/core/device_manager.cpp:89-253 | a discovered row is stored, with its details and the endpoint its device settled on, if and only if the rows of its device agree with each other and the stored row and no other adapter holds that endpoint; each status has its own condition |
| `DiscoveryExact.AbsentExact` | src/core/device_manager.cpp:214-260 | a stored row that was not discovered disappears if and only if exactly one present device stands for its endpoint and no other adapter holds it; otherwise it stays, offline |
| `DeviceManager.OrderDoesNotMatter` | src/core/device_manager.cpp:89-262 | the specified table and the specified result of each key are the same for permuted rows |
| `DeviceManager.ReconcileInAnyOrder` | src/core/device_manager.cpp:89-262 | two managers with equal tables that reconcile permuted rows end with equal tables and report rows of one key alike |
| `DeviceManager.FindRow` | src/core/device_manager.cpp:52-54 | the first row with the key |
| `DeviceManager.FindConflict` | src/core/device_manager.cpp:56-68 | whether another row holds the endpoint, optionally only in another adapter |
| `DeviceManager.UpsertRow` | src/core/device_manager.cpp:48-87 | the stored table and status |
| `DeviceManager.SettleEndpoint` | src/core/device_manager.cpp:152-168 | the loop with its early exit finds a clash if and only if the rows and the bound endpoint disagree, and otherwise the one endpoint |
| `DeviceManager.MakePlan` | src/core/device_manager.cpp:142-190 | the plan of a key depends only on the set of its rows |
| `DeviceManager.GroupRows` | src/core/device_manager.cpp:106-110 | the indices of the rows by key, each row in its group |
| `DeviceManager.CountClaims` | src/core/device_manager.cpp:192-200 | the counters equal the number of claimants of each endpoint |
| `DeviceManager.EraseStaleRows` | src/core/device_manager.cpp:228-238 | keeps exactly the rows that are not stale holders, in order |
| `DeviceManager.ApplyPlans` | src/core/device_manager.cpp:207-253 | plans are applied in key order, one status per key |
| `DeviceManager.Manager.Store` | src/core/device_manager.cpp:42-46 | in-place upsert that keeps keys unique and endpoints exclusive |
| `DeviceManager.Manager.ReconcileDiscovery` | src/core/device_manager.cpp:89-262 | the loops over a sequence of rows compute a function of the set of rows; every row gets its key's result |
| `DeviceManager.Manager.MarkDeviceOffline` | src/core/device_manager.cpp:264-276 | marks exactly that row offline |
| `DeviceManager.MarkOfflineKeeps` | src/core/device_manager.cpp:264-276 | marking offline changes neither keys nor endpoints |
| `Routing.ScanExact` | src/core/route_manager.cpp:22-51 | a scan finds a device if and only if exactly one row is selected, and nothing if and only if none is |
| `Routing.ScanDevices` | src/core/route_manager.cpp:68-78 | the loop that gives up at the second hit |
| `Routing.ResolveRoute` | src/core/broker.cpp:29-49 | a command is routed to an online device that its selector alone selects; otherwise not found or unavailable |
| `Routing.SameDeviceSameLane` | src/core/broker.cpp:98-117 | commands for one physical device get one route key, whichever alias names it |
| `Routing.LaneOfDevice` | src/core/broker.cpp:98-117 | no unrouted command shares a device's route key |
| `Routing.LanesSeparate` | src/core/broker.cpp:107-109 | for every set of adapter names: distinct devices of these adapters have distinct route keys if and only if no name followed by a colon begins another |
| `Routing.LanesCollide` | src/core/broker.cpp:107-109 | if one name followed by a colon begins another, every device of the second adapter shares its route key with some device of the first |
| `LaneScheduler.Runnable` | src/control/websocket_server.cpp:189-195 | the first pending request whose lane is free; everything before it has a busy lane |
| `LaneScheduler.EveryRunIsSerial` | src/control/websocket_server.cpp:109-213 | on every run stopped only from outside: no two workers run requests for one physical device, requests of a lane start in arrival order, a request is overtaken only while its lane is busy, the backlog is at most 256 |
| `LaneScheduler.StopExact` | src/control/websocket_server.cpp:72-94 | the end of a stop keeps lanes exclusive on every continuation if and only if no worker called it |
| `LaneScheduler.SelfStopBreaks` | src/control/websocket_server.cpp:72-94 | after a stop called by a worker, restarting and repeating its request runs one lane twice at once |
| `LaneScheduler.SelfStopReachable` | src/control/websocket_server.cpp:72-94 | worker 0 takes a request, stops the server and the other workers leave: a reachable state whose stop ends unsafe |
| `LaneHistory.EveryRequestAccounted` | src/control/websocket_server.cpp:72-201 | on every run, however stopped, each request taken on is waiting or was started, once, if and only if no stop threw it away; requests are taken on exactly when the server is not stopping and fewer than 256 wait |
| `LaneHistory.FreeLaneStarts` | src/control/websocket_server.cpp:189-201 | an idle worker starts the earliest waiting request whose lane no running request is in |
| `LaneHistory.FinishFrees` | src/control/websocket_server.cpp:109-116 | a finished request leaves its lane free and its worker ready |
| `LaneScheduler.Lanes.EnqueueRequest` | src/control/websocket_server.cpp:118-143 | accepted if and only if not stopping and fewer than 256 wait |
| `LaneScheduler.Lanes.TakeRequest` | src/control/websocket_server.cpp:189-201 | takes the first runnable request and marks its lane busy |
| `LaneScheduler.Lanes.ReleaseRoute` | src/control/websocket_server.cpp:109-116 | frees exactly that lane |
| `ControlOperation.ResultIsFinal` | src/core/control_operation.cpp:68-136 | once set the result never changes, under any order of calls |
| `ControlOperation.FirstWriteWins` | src/core/control_operation.cpp:68-136 | on every run the result is what the first completion or cancellation wrote, and the operation counts as cancelled if and only if that was a cancellation |
| `ControlOperation.CancelTells` | src/core/control_operation.cpp:68-171 | the cancel handlers told are the one given last before that cancellation and every one given after it, none if it was a completion |
| `ControlOperation.RunRemembers` | src/core/control_operation.cpp:138-171 | the registered handlers, the cancel handler and the broker's life follow from the calls |
| `ControlOperation.EachHandlerOnce` | src/core/control_operation.cpp:68-153 | each completion handler given once runs exactly once, with the result, never before it is set |
| `ControlOperation.EachCommandAuditedOnce` | src/core/broker.cpp:261-269 | while the broker lives each dispatched command gets exactly one after_dispatch, with the final result; at most one afterwards |
| `ControlOperation.CancelHandlerIsTold` | src/core/control_operation.cpp:68-171 | on every run a cancelled operation has told the cancel handler it was given last, and an operation that was not cancelled has told none |
| `ControlOperation.RunAllSound` | src/core/control_operation.cpp:114-136 | running all due calls keeps every handler counted once and leaves none due |
| `ControlOperation.Operation.CompleteWith` | src/core/control_operation.cpp:114-136 | equals the completion step with its due calls run: only the first completion wins and tells every waiting handler, in order |
| `ControlOperation.Operation.CancelOperation` | src/core/control_operation.cpp:68-97 | equals the cancel step with its due calls run: the cancelled result is set once, the cancel handler and every waiting handler are told |
| `ControlOperation.Operation.Observe` | src/core/control_operation.cpp:138-153 | equals the registration step with its due calls run: a late observer is called at once, an early one waits, nothing else changes |
| `ControlOperation.Operation.GiveCancelHandler` | src/core/control_operation.cpp:155-171 | equals the step: a handler given after a cancellation is told at once |
| `ControlQueue.EveryRunKeepsCalls` | src/adapters/axtp_adapter.cpp:1489-1760 | on every run at most 32 calls are outstanding, calls are sent in submission order, and every accepted uncompleted call is in exactly one place |
| `ControlQueue.QueueOrSlotExact` | src/adapters/axtp_adapter.cpp:1692-1760 | on every run an accepted uncompleted call is in neither queue nor slot if and only if an expiry at or past its deadline, or a cancellation it matches, found it queued |
| `ControlQueue.ExpireExact` | src/adapters/axtp_adapter.cpp:1692-1723 | an expiry takes an uncompleted queued call out if and only if its deadline has come |
| `ControlQueue.CancelCallsExact` | src/adapters/axtp_adapter.cpp:1725-1760 | a cancellation takes a queued call out if and only if it matches device and generation |
| `ControlQueue.ExpiredIsInNeither` | src/adapters/axtp_adapter.cpp:1692-1723 | a call accepted at 0 with deadline 1 and expired at 1 is in neither queue nor slot |
| `ControlHistory.EverySubmissionDecided` | src/adapters/axtp_adapter.cpp:1478-1560 | on every run the accepted calls are, in order, exactly the submissions that were on time, for the present session, before the stop and within the limit of 32 |
| `ControlHistory.CallExact` | src/adapters/axtp_adapter.cpp:1571-1760 | exactly the fitting call is sent, and a call is completed exactly by its cancellation, its refusal, its answer or the thread that removed it |
| `ControlHistory.TakesEarliest` | src/adapters/axtp_adapter.cpp:1571-1593 | the pump takes the earliest uncompleted call of the queue |
| `ControlQueue.Calls.ProcessNext` | src/adapters/axtp_adapter.cpp:1571-1593 | drops completed calls from the front and puts the next one in flight |
| `ControlQueue.Calls.ExpirePending` | src/adapters/axtp_adapter.cpp:1692-1714 | removes completed and overdue calls, keeps the rest in order |
| `ControlQueue.Calls.CancelMatching` | src/adapters/axtp_adapter.cpp:1725-1753 | removes the matching calls and also completes the matching one in flight |
| `DeviceContexts.EveryRunObeysRules` | src/adapters/axtp_adapter.cpp:3215-3273 | on every run of callers and resets: a leaf is created only when all earlier leaves of the device are reset, operations start only on unretired leaves, a reset runs only with none in flight, and each device has at most one live leaf |
| `DeviceContexts.NothingStartsOnRetired` | src/adapters/axtp_adapter.cpp:737-749 | no operation starts on a leaf after it was retired |
| `DeviceContexts.ContextExact` | src/adapters/axtp_adapter.cpp:924-966 | nothing while the device is being retired; otherwise its one live leaf, which is not retired; otherwise a new one if asked for |
| `DeviceContexts.ResetThenReuse` | src/adapters/axtp_adapter.cpp:3215-3273 | a reset that finds its leaf idle goes through, and the device then gets a new leaf |
| `DeviceContexts.ResetWaits` | src/adapters/axtp_adapter.cpp:3223-3260 | an operation in progress holds the reset back, and its end lets it go |
| `DeviceContexts.Manager.FindOrCreate` | src/adapters/axtp_adapter.cpp:924-966 | nothing for a retiring device, the existing leaf, or a new one |
| `DeviceContexts.Manager.Begin` | src/adapters/axtp_adapter.cpp:737-749 | an operation is acquired if and only if the leaf is not retired |
| `DeviceContexts.Manager.End` | src/adapters/axtp_adapter.cpp:751-763 | an ended operation leaves the count |
| `DeviceContexts.Manager.Retire` | src/adapters/axtp_adapter.cpp:3223-3247 | the first reset owns the retirement; a second returns at once |
| `LeaseRegistry.EveryRunKeepsLeases` | src/host/axent_host.cpp:1736-1932 | on every run registry counts equal live leases plus the open reservation, a device under maintenance has no activity, and each device has at most one media lease, the one the owner map names |
| `LeaseRegistry.MaintenanceExcludes` | src/host/axent_host.cpp:91-132 | a maintained device refuses every acquisition, a busy one refuses maintenance |
| `LeaseHistory.EveryRunDecides` | src/host/axent_host.cpp:1736-1932 | refinement: on every run the host, with its counts and owner map, grants and refuses exactly what a machine that only knows live leases, reservation and maintained devices would |
| `LeaseRegistry.ResetSound` | src/host/axent_host.cpp:1344-1387 | stopping or restarting releases every lease and leaves only maintenance counted |
| `LeaseRegistry.Registry.Acquire` | src/host/axent_host.cpp:91-105 | refused if and only if the device is under maintenance |
| `LeaseRegistry.Registry.ReleaseLease` | src/host/axent_host.cpp:107-120 | one count down, never below zero; an unused entry disappears |
| `LeaseRegistry.Registry.ReleaseLeases` | src/host/axent_host.cpp:1371-1374 | the loop releases each lease once |
| `LeaseRegistry.Registry.AcquireMaintenance` | src/host/axent_host.cpp:122-132 | granted if and only if the device has no activity and no maintenance |
| `ReplyTargets.MapsStayInverse` | src/transports/websocket/ix_websocket_transport.hpp:65-115 | on every run in which some target is free at each open, counter wrap-around included, the two maps are inverses over exactly the connected clients |
| `ReplyTargets.TargetNamesOneConnection` | src/transports/websocket/ix_websocket_transport.hpp:236-258 | a target captured with a message resolves, after any closes and reopens, to that connection or to none |
| `ReplyTargets.ReplyReachesSender` | src/transports/websocket/ix_websocket_transport.hpp:101-258 | a reply reaches the connection its message came from if and only if the sender was connected then and its connection was neither closed nor replaced since |
| `ReplyTargets.OpenTargetResolves` | src/transports/websocket/ix_websocket_transport.hpp:236-258 | the target of a connected client resolves to its connection |
| `ReplyTargets.NextTargetUsable` | src/transports/websocket/ix_websocket_transport.hpp:315-322 | one round of the counter finds a non-zero unused target when there is any |
| `ReplyTargets.Transport.TakeTarget` | src/transports/websocket/ix_websocket_transport.hpp:315-322 | the loop ends at the specified target and leaves the counter behind it, wrap-around included |
| `ReplyTargets.Transport.Forget` | src/transports/websocket/ix_websocket_transport.hpp:306-313 | equals the removal step: the id and its target leave both maps |
| `ReplyTargets.Transport.OnOpen` | src/transports/websocket/ix_websocket_transport.hpp:65-88 | equals the open step (target, counter, maps) and keeps the maps inverse |
| `ReplyTargets.Transport.OnClose` | src/transports/websocket/ix_websocket_transport.hpp:89-100 | equals the close step and keeps the maps inverse |
| `ReplyTargets.Transport.OnMessage` | src/transports/websocket/ix_websocket_transport.hpp:101-115 | equals the receive step: the message keeps the target its client has at that moment |
| `ReplyTargets.Transport.SendTo` | src/transports/websocket/ix_websocket_transport.hpp:236-258 | sends on the connection the target resolves to; exactly when the target is in use |
| `WideText.WideToUtf8` | src/transports/hidapi/hid_transport.cpp:145-171 | for every wide string and both widths the bytes are well-formed UTF-8 that decodes to its scalar values, pairs joined, anything else that is no scalar replaced by U+FFFD |
| `WideText.AppendUtf8` | src/transports/hidapi/hid_transport.cpp:123-143 | appends the encoding of the code point, or of U+FFFD if it is no scalar value |
| `WideText.Scalars` | src/transports/hidapi/hid_transport.cpp:145-171 | the text of a wide string consists of Unicode scalar values |
| `WideText.ScalarsWiden` | src/transports/hidapi/hid_transport.cpp:151-163 | reading back a wide string gives the text it was made from, for every text |
| `WideText.DecodeEncode` | src/transports/hidapi/hid_transport.cpp:123-143 | decoding an encoded text gives the text |
| `WideText.EncodeDecode` | src/transports/hidapi/hid_transport.cpp:123-143 | a text has one well-formed encoding: whatever decodes to it is its encoding |
| `FirmwareUpdate.Transfer` | src/firmware/firmware_update_service.cpp:286-326 | chunks are contiguous from the start of the image, cursor = bytes before, sequence = index modulo 2^32; complete if and only if every chunk succeeded, and then they join to the image |
| `FirmwareUpdate.RunUnderLease` | src/firmware/firmware_update_service.cpp:230-366 | begin, chunks, and finish only after the whole image; the result code says how far it got, the result counts the image bytes and the chunks the device took |
| `FirmwareUpdate.Run` | src/firmware/firmware_update_service.cpp:147-367 | which failures make no call at all; once granted, all calls lie between one acquisition and one release, begin is called once, finish once if the whole image went out and never otherwise, and the result has the image size and the number of chunks taken modulo 2^32 |
| `FirmwareUpdate.CallsCounted` | src/firmware/firmware_update_service.cpp:230-367 | the counts of each kind of call in a granted transaction |
| `MaintenanceLeases.EachLeaseReleasedOnce` | src/firmware/firmware_update_service.cpp:14-98 | whatever a program does with its handles (move, assign, reset, destroy), each granted lease is held by a handle or has been released exactly once |

## Left out

- AxtpClient, the application handshake, HIDAPI, sockets, the WebSocket library and file reading: replies and failures are inputs.
- JSON shapes, capability parsing, codec negotiation and diagnostics strings: an open is abstracted to the id and source it returns, or its failure.
- Heartbeats, health probes, recovery backoff and retry timing: policy that does not affect the protocols; recovery appears as its effects on streams, binding and frame-rate state.
- MediaStreamRelay and the older media subscription: simpler forms of the stream subscription.
- Direct dispatch of a subscription: its completion objects and ownership tags are not modelled; taking and finishing items is one sequence of deliveries in both modes.
- Ordering numbers of source-state events: a terminal event is applied when it is processed; dropping an outdated event is a step that does not happen.
- Suppression of automatic video opens after a failed frame-rate change: such an open is a step that is not taken.
- Null and throwing callbacks: a callback that is missing or throws has no effect on any modelled state.
- One device per leaf: a leaf adapter's device id is fixed, as the manager creates it.
- Condition variables and thread scheduling: steps are enabled or not; only the frame-rate change has a termination claim.
- 64-bit counters other than the reply-target counter: generations, epochs and totals are unbounded; the 32-bit chunk counter is modelled.
- `mark_offline` by bare id and copying a device manager: they only add simpler members.
- The first, advisory capacity test of `call_async`: it refuses earlier but never accepts more than the second one.
- MD5, progress observers and message texts of a firmware update: they do not affect the calls made.
- EndpointClaims.SoleClaimantHolds: requires that all discovered rows belong to the reconciled adapter, as the callers ensure.
- EndpointClaims.ManyClaimantsNeverResolve: requires that all discovered rows belong to the reconciled adapter, as the callers ensure.
- ReplyTargets.MapsStayInverse: requires a free target at each open; without one the search of the code does not end.
- ReplyTargets.ReplyReachesSender: fewer than 2^64 connections, since the counter then starts to reuse targets.
- DiscoveryExact.ReconcileExact: requires that all discovered rows belong to the reconciled adapter, as the callers ensure.
- DiscoveryExact.AbsentExact: requires that all discovered rows belong to the reconciled adapter, as the callers ensure.
- ReplyTargets.TargetNamesOneConnection: fewer than 2^64 connections, since the counter then starts to reuse targets.
- ReconfigureProgress.AcceptedChangeEnds: counts ticks whose clock readings increase; how often the pump ticks is not modelled.
- ReconfigureProgress.EndsWithinTwoRounds: counts ticks whose clock readings increase; how often the pump ticks is not modelled.
- Overlapping stops of the WebSocket server: `stop` takes the server object down outside any lock (src/control/websocket_server.cpp:43-56), so its callers must not overlap.
- LaneScheduler.EveryRunIsSerial: the device table does not change during the run.
