# Resin: the in-memory state, modelled and proved

Resin is a sticky proxy-pool gateway. Its value sits in state kept in memory
that many small concurrent steps must leave consistent: leases and an account
quota per egress address, a lock-free probe queue, reference-counted nodes with
one routable view per platform, outbounds shared between threads, write-behind
dirty sets, a few index structures, paged request logs and bucketed metrics.
This project models that state in Dafny and proves what holds over every run,
every interleaving and every input.

Two forms are used throughout. Code that changes an object in place is a `class`
whose methods are proved equal to a step of a specification on values; the
properties promised are then proved of whole sequences of such steps. Lock-free
and transactional protocols are state machines whose steps are one load, one
compare-and-swap, one map access, one queue operation or one transaction.

| files | models |
|---|---|
| `AccountWindow`, `StickyRouting`, `Router`, `RoutingRuns`, `RouterRuns`, `RoutingLimits` | the lease state machine with the account quota, its in-place router, whole runs, the router driven through them, and where the quota's promise ends |
| `ProbeProtocol`, `ProbeRuns`, `ProbeQueue` | the probe task flags and tokens, every interleaving, the bounded queues |
| `NodeFilter`, `Topology`, `TopologyRuns`, `NodePool`, `ViewRaces` | the platform filter, every pool and subscription operation, whole runs, the in-place pool, and one view under concurrent changes and rebuilds |
| `OutboundLifecycle` | building, storing, replacing and closing outbounds |
| `WriteBehind`, `WriteRaces`, `StateEngine`, `OrphanRepair` | dirty sets against memory and database, writers that race each other and the flush, the flush in place, the start-up repair |
| `RoutableView`, `RandomRoute`, `LatencyTable` | the sharded set, two-choice picking, the bounded latency table |
| `RulePrefix`, `RuleWinners`, `RuleTrie`, `AccountMatcher` | account-rule prefixes, which rule of several is kept, the scan they stand for, the trie |
| `Pagination` | request-log pages merged from several databases |
| `Metrics`, `MetricsManager` | counters, buckets and the retry queue |
| `Types`, `FiniteSets`, `Strings` | shared values and facts |

## Where the code and its promise part

Each is stated with its exact condition, and with a run or an input that shows it.

- Control-plane bindings and restored leases take quota slots without any
  admission. `LimitHoldsIff`: an address never has more than one account beyond
  the limit if and only if none was restored with more and every binding found
  room. `BindingsIgnoreTheLimit` puts any number on one address.
- doc/2026-08-15-resin-ip-account-quota-design.md (line 51) says that renewing a
  lease never checks the quota. The code does check it, and the model follows the
  code. `IdleAccountMoved` says exactly when an account with a live lease on a live
  node loses it, `IdleAccountLosesLease` gives a run of requests in which one does,
  and `ActiveAccountAdmitted` says that it never happens to an account active
  within the window. `NeverTurnedAwayIff`: with nothing bound or restored, the quota
  never takes an unexpired lease if and only if leases live shorter than the window.
- A probe request can be lost although no queue refused it. `AtRest`: a key is left
  waiting if and only if one of two races struck it - its request was recorded on
  a state object already deleted, or its object was deleted after the check - and
  no run of it has started since. `RequestLost` and `RequestLostInDelete` are runs.
- Writers do not always mark a key right after changing it: lease events mark it
  from inside the table update, and a deletion marks it after requests may have
  created it anew. `AstrayIff` and `NothingLostIff`: over every interleaving of any
  writers and the flusher, an update is lost if and only if its key was struck - moved
  away from its row while unmarked, or written with a stale value and no newer mark -
  and neither changed, marked nor written since. `MarkFirstLosesUpdate` and
  `LateDeleteMarkLosesUpdate` are runs; a deletion announced ahead, with no other
  writer of its key, is always safe in the end (`LateDeletionSafe`).
- A refresh that outlives its subscription re-adds nodes nobody manages
  (`LateRefreshExactIff`, and the run `LateRefreshLeaks`).
- An outbound built on re-enabling a subscription is told to no platform.
  `SetEnabledExactIff`: the views stay exact if and only if no such node had
  everything but its outbound. From an empty start that is always so
  (`MeasuredRunsOrderly`); with a latency and an address read back at start-up it
  need not be (`ReenabledNodeUnseen`).
- A rule for a bare host is out of action exactly when the same host followed by a
  slash has a rule too (`ShadowedIff`); `ShadowedRule` is a table of two rules with
  one of them answering every request for that host.
- Metrics are exact only with joint snapshots and fresh buckets.
  `AggregateExactIff` and `SlippedInExactIff` say when snapshots read apart still
  give the right global count, `GlobalTotalExactIff` says it of the total over a
  whole run of aggregations, `SplitSnapshotsCountTwice` shows when not;
  `RowsAccountIff` says when the rows account for every request,
  `RestartLosesRows` is a restart within one bucket that loses one.

## Model

| member | source | states |
|---|---|---|
| AccountWindow.PruneIsPruned | internal/routing/ip_window.go:98-117 | pruning one address leaves the in-window accounts of every address unchanged, and that address with exactly those |
| AccountWindow.SeenRecent | internal/routing/ip_window.go:70-96 | recording an activity after pruning is, inside the window, exactly the addition of that activity |
| AccountWindow.TouchRecent | internal/routing/ip_window.go:61-84 | an activity recorded without pruning is the same addition, except that a lingering expired entry passes its fallback mark on |
| AccountWindow.RecentSlides | internal/routing/ip_window.go:98-117 | laziness is invisible: the window at a later time depends only on the window at an earlier one |
| AccountWindow.IPAccountWindow.CountLocked | internal/routing/ip_window.go:98-117 | returns the number of in-window accounts and prunes that address only |
| AccountWindow.IPAccountWindow.ReserveIfEligible | internal/routing/ip_window.go:173-202 | admits iff already counted or below the limit, and then the in-window state is exactly that admission's |
| AccountWindow.IPAccountWindow.RefreshOnHit | internal/routing/ip_window.go:204-231 | admits an existing lease into at most one marked slot beyond the limit; counters of refusals and fallbacks follow |
| AccountWindow.IPAccountWindow.ReserveForcedFallback | internal/routing/ip_window.go:233-251 | fail-open admission, refused at limit plus one |
| AccountWindow.IPAccountWindow.CountsByIP | internal/routing/ip_window.go:128-140 | exactly the addresses with in-window accounts, each with their number |
| AccountWindow.IPAccountWindow.Prune | internal/routing/ip_window.go:254-268 | pruning everything changes no window |
| AccountWindow.IPAccountWindow.Touch | internal/routing/ip_window.go:61-84 | the unconditional recording, nothing for anonymous pairs |
| Router.PlatformRoutingState.RouteSticky | internal/routing/router.go:148-220 | the whole request - hit, same-address rotation, creation, fallback, abort - on table, window, counters and events equals the specified transition |
| Router.PlatformRoutingState.TryLeaseHit | internal/routing/router.go:252-287 | a hit only on the lease's own live node, if the quota readmits |
| Router.PlatformRoutingState.TryLeaseSameIPRotation | internal/routing/router.go:289-332 | keeps the address, moving to the candidate on it, if the quota readmits |
| Router.PlatformRoutingState.CreateOrAbortStickyLease | internal/routing/router.go:222-250 | replaces the previous lease by a new one, or ends it if no node can be had |
| Router.PlatformRoutingState.SelectRouteForLease | internal/routing/router.go:373-405 | the first picked node the quota admits, then the fallback |
| Router.PlatformRoutingState.FallbackQuotaRoute | internal/routing/router.go:407-466 | the node whose address is the lexicographic minimum of in-window accounts and leases, then force-reserved |
| Router.PlatformRoutingState.ChooseSameIPRotationCandidate | internal/routing/router.go:556-610 | the lowest known latency on the address, else the first node on it |
| Router.PlatformRoutingState.SelectLiveRandomRoute | internal/routing/router.go:515-554 | the first picked node that is live, within the attempts allowed |
| Router.PlatformRoutingState.CleanupPreviousLease | internal/routing/router.go:468-507 | ends and tells the previous lease, its counter decremented once |
| Router.PlatformRoutingState.UpsertLease | internal/routing/router.go:634-688 | an unconditional binding: counters moved, window touched, create or replace told |
| Router.PlatformRoutingState.RestoreLease | internal/routing/router.go:699-744 | a binding read back at start-up, told to nobody |
| Router.PlatformRoutingState.DeleteLease | internal/routing/router.go:806-826 | removes and tells exactly one lease if there was one |
| Router.PlatformRoutingState.DeleteAllLeases | internal/routing/router.go:828-850 | whatever the iteration order, the table ends empty after deleting each lease once |
| Router.PlatformRoutingState.SweepPlatformState | internal/routing/lease_cleaner.go:106-149 | expires exactly what is expired on a second look, lease by lease, then prunes the window |
| RoutingRuns.TableConsistent | internal/routing/lease.go:61-123 | after any run from any restored table each address's counter equals its leases, and replaying the emitted events gives exactly the table |
| RoutingRuns.RollingWindowBound | internal/routing/ip_window.go:98-268 | after any run, for every instant t from then on: at most max+1 accounts not seeded by the control plane were routed to an address in (t-window, t], at most max outside fallback slots, and the window agrees with the whole history restricted to it |
| RouterRuns.StoredWindowBound | internal/routing/ip_window.go:98-268 | the same bound and agreement for the entries the router actually stores, however lazily pruned |
| RouterRuns.Drive | internal/routing/router.go:148-220 | each call on the router in place is one step of a run |
| RouterRuns.DriveAll | internal/routing/router.go:148-850 | any sequence of calls with a non-decreasing clock is a run, and leaves the router where the run ends |
| RouterRuns.StartUp | internal/routing/router.go:699-744 | reading the leases back leaves the router where runs begin |
| RoutingRuns.RoutedTrafficBound | internal/routing/router.go:252-466 | with no control-plane binding and nothing restored, at most max+1 distinct accounts per address in any window |
| RoutingLimits.BindingsIgnoreTheLimit | internal/routing/router.go:634-688 | bindings put any number n of accounts in one address's window at one instant, whatever the limit |
| RoutingRuns.StickyRun | internal/routing/router.go:181-332 | over every undisturbed run the lease keeps address, creation time and expiry, and every request is answered on that address from a node of the view |
| RoutingRuns.ActiveAccountAdmitted | internal/routing/ip_window.go:204-231 | after any run, an account last routed to its lease's address less than a window ago is admitted there |
| RoutingLimits.IdleAccountMoved | internal/routing/router.go:252-287 | with a live lease on a live node, a request keeps the lease iff the account is still counted or its address has at most max accounts |
| RoutingLimits.IdleAccountLosesLease | internal/routing/router.go:252-332 | a run of requests, for every limit, in which an account with an unexpired lease on a live view node loses it |
| RoutingLimits.ShortLeaseWelcome | internal/routing/ip_window.go:204-231 | when leases live shorter than the window, every run with nothing restored and no binding leaves every account with an unexpired lease admitted to its address |
| RoutingLimits.NeverTurnedAwayIff | internal/routing/ip_window.go:204-231 | with the quota on: in no run with nothing restored and no binding does the quota refuse an unexpired lease iff leases live shorter than the window |
| RoutingLimits.BindKeepsLimitIff | internal/routing/router.go:634-688 | a binding keeps every address within max+1 iff the account is counted there already or at most max are |
| RoutingLimits.BootSlots | internal/routing/router.go:699-744 | the accounts counted on an address at start-up are exactly those restored there as recently active |
| RoutingLimits.LimitHoldsIff | internal/routing/ip_window.go:61-84 | over a whole run every address stays within max+1 iff none was restored with more and every binding fits |
| RoutingRuns.RotationIsFastest | internal/routing/router.go:556-610 | no node on the address has a lower known latency than the candidate |
| RoutingRuns.LightestIsLightest | internal/routing/router.go:407-466 | no node of the view is on an address with fewer in-window accounts, or as many and fewer leases |
| RoutingRuns.CreationFailsIff | internal/routing/router.go:373-466 | with a non-empty view of live nodes, creation fails iff every routable address already has max+1 in-window accounts and none of those tried counts this one |
| ProbeProtocol.StepOwner | internal/probe/manager.go:625-681 | a running object has exactly one owning worker, and only owned objects run |
| ProbeProtocol.StepNoLeak | internal/probe/manager.go:683-703 | a mapped idle object always has a thread still due to swap or delete it |
| ProbeRuns.EveryInterleaving | internal/probe/manager.go:518-703 | flag, ownership and no-leak invariants hold in every interleaving, refusals and stopping included |
| ProbeRuns.AtRest | internal/probe/manager.go:552-703 | with no refusal, at rest the map is empty and a request of a key is lost iff the key raced and no run of it started since |
| ProbeRuns.NoRequestLost | internal/probe/manager.go:518-691 | in every interleaving without refusals each outstanding request, unless its key is stranded by a race, is backed by a token, a carrier or an owned dirty run |
| ProbeRuns.WantedIff | internal/probe/manager.go:552-703 | a stranded key is outstanding, and an outstanding key is stranded or awaited by its mapped object |
| ProbeRuns.RequestLost | internal/probe/manager.go:552-642 | a run, for every key, in which a request recorded on a deleted object is never served although nothing was refused |
| ProbeRuns.RequestLostInDelete | internal/probe/manager.go:693-703 | the same for a request recorded between the deletion's check and the deletion |
| ProbeQueue.Buffer.Push | internal/probe/manager.go:124-126 | appends to the buffer's contents |
| ProbeQueue.Buffer.Pop | internal/probe/manager.go:128-141 | removes the oldest element, compaction being invisible |
| ProbeQueue.TaskQueue.Enqueue | internal/probe/manager.go:178-200 | refuses iff stopped or that priority is full, else appends to that priority |
| ProbeQueue.TaskQueue.TryDequeue | internal/probe/manager.go:202-227 | takes the oldest of the chosen priority, or of the other when that one is empty |
| ProbeQueue.TaskQueue.StopDropPending | internal/probe/manager.go:229-245 | drops every queued task for good |
| NodeFilter.EvaluateNode | internal/platform/platform.go:121-161 | true iff enabled, healthy, tags pass, address known, region passes and latency known |
| NodeFilter.MatchTagFilter | internal/node/entry.go:136-182 | true iff some enabled subscription holds the node, no tag of any enabled holder is excluded, and some tag passes the positive rules |
| NodeFilter.MatchOneSubscription | internal/node/entry.go:136-182 | one holder: whether any tag is excluded, and whether any is positive |
| NodeFilter.MatchRegionFilter | internal/platform/platform.go:185-213 | known, included if anything is included, not excluded |
| NodeFilter.HasEnabledSubscription | internal/node/entry.go:184-204 | some referenced subscription is enabled and holds the node |
| Topology.SameRoutable | internal/topology/pool.go:290-319 | eligibility depends only on the subscriptions the entry refers to |
| Topology.UpdatedExact | internal/platform/platform.go:97-119 | re-evaluating at least the nodes whose eligibility could change keeps every view exact |
| Topology.SetNodeExact | internal/topology/pool.go:525-689 | changes of circuit, latency or egress notify whenever the filter could tell |
| TopologyRuns.StepExact | internal/topology/pool.go:106-158 | every pool, subscription and platform operation, those two cases excepted, keeps exact reference counts and views equal to a full re-filter |
| TopologyRuns.AlwaysExact | internal/topology/subscription_scheduler.go:240-450 | after every run of operations with no refresh outliving its subscription and no outbound built unseen: a hash is in the pool iff a registered subscription holds it, its entry names exactly those, and each view is exactly the full re-filter |
| ViewRaces.ViewExactAtRest | internal/platform/platform.go:78-119 | in every interleaving of threads that change nodes, then lock the view and read the node field by field, with rebuilds: a node owed no notification is in the unlocked view iff the filter admits it, so at rest the view is the full re-filter |
| TopologyRuns.AppliedIncreases | internal/topology/subscription_scheduler.go:240-331 | an applied refresh carries a strictly higher number than the one before; a discarded one changes nothing managed |
| TopologyRuns.EvictedNeverReturns | internal/topology/subscription_cleanup.go:14-84 | over every such run that keeps listing it, an evicted hash stays evicted and is never referenced through that subscription again, in replace and incremental mode |
| TopologyRuns.LateRefreshExactIff | internal/service/control_plane_subscription.go:430-475 | a refresh applied after its subscription was deleted keeps the counts exact iff all it merged is evicted |
| TopologyRuns.LateRefreshLeaks | internal/service/control_plane_subscription.go:430-475 | a run from the empty state: register, start a refresh, delete, apply - and a node nobody manages is in the pool |
| TopologyRuns.SetEnabledExactIff | internal/topology/subscription_scheduler.go:389-429 | enabling or disabling, outbound checks included, leaves the views exact iff no newly built node had its circuit closed, address and latency known, and tags and region passing on some platform |
| TopologyRuns.MeasuredRunsOrderly | cmd/resin/main.go:312-316 | in every run from the empty state whose measurements go through an outbound, re-enabling is never unseen |
| TopologyRuns.ReenabledNodeUnseen | cmd/resin/main.go:312-316 | from a start-up state that is exact, re-enabling a subscription builds an outbound and leaves a view short of the node |
| NodePool.DiffHashes | internal/subscription/subscription.go:366-388 | added, kept and removed hashes, each once |
| NodePool.RemoveSubscriptionID | internal/node/entry.go:104-114 | drops the one reference, order kept |
| NodePool.AddSubscriptionID | internal/node/entry.go:90-102 | adds the reference once |
| NodePool.BuildRefreshed | internal/topology/subscription_scheduler.go:224-236 | tags gathered in order and first raw options, for exactly the listed hashes |
| NodePool.GlobalNodePool.NotifyAllPlatformsDirty | internal/topology/pool.go:418-450 | every platform re-evaluates exactly that node |
| NodePool.GlobalNodePool.FullRebuild | internal/platform/platform.go:78-94 | the set of all pool nodes the filter admits |
| NodePool.GlobalNodePool.NotifyDirty | internal/platform/platform.go:97-119 | one platform re-evaluates one node |
| NodePool.GlobalNodePool.RebuildAllPlatforms | internal/topology/pool.go:452-484 | every view becomes the full re-filter |
| NodePool.GlobalNodePool.RegisterPlatform | internal/service/control_plane_platform.go:461-464 | a new platform starts with the full re-filter |
| NodePool.GlobalNodePool.ReplacePlatform | internal/topology/pool.go:216-252 | a changed filter comes with its own full re-filter |
| NodePool.GlobalNodePool.UnregisterPlatform | internal/topology/pool.go:196-214 | the platform goes, the others stay |
| NodePool.GlobalNodePool.AddNodeFromSub | internal/topology/pool.go:106-128 | creates or extends the entry, then re-evaluates it everywhere |
| NodePool.GlobalNodePool.RemoveNodeFromSub | internal/topology/pool.go:134-158 | drops the reference, deletes with the last one, then re-evaluates |
| NodePool.GlobalNodePool.RecordResult | internal/topology/pool.go:525-563 | failures counted, circuit opened or closed, notified exactly on a change |
| NodePool.GlobalNodePool.RecordLatency | internal/topology/pool.go:593-636 | the first latency notifies |
| NodePool.GlobalNodePool.UpdateNodeEgressIP | internal/topology/pool.go:644-689 | address and region rules, notified iff either changed |
| NodePool.GlobalNodePool.RegisterSubscription | internal/subscription/subscription.go:160-178 | a subscription that manages nothing yet |
| NodePool.GlobalNodePool.ReconfigureSubscription | internal/subscription/subscription.go:252-283 | a changed source raises the configuration version |
| NodePool.GlobalNodePool.StartAttempt | internal/subscription/subscription.go:186-193 | a refresh takes a fresh number and the current configuration version |
| NodePool.GlobalNodePool.HandleUpdateFailure | internal/topology/subscription_scheduler.go:353-384 | a failed refresh changes no managed node |
| NodePool.GlobalNodePool.UpdateSubscription | internal/topology/subscription_scheduler.go:194-331 | stale attempts change nothing; else merge, diff, add, keep and remove end in exactly the specified pool and views |
| NodePool.GlobalNodePool.MergeManaged | internal/topology/subscription_scheduler.go:251-284 | replace or incremental merge, eviction inherited |
| NodePool.GlobalNodePool.RenameSubscription | internal/topology/subscription_scheduler.go:435-450 | the new name, and every held pool node re-evaluated under it |
| NodePool.GlobalNodePool.SetSubscriptionEnabled | internal/topology/subscription_scheduler.go:389-429 | the flag, every view rebuilt, then an outbound attempt for each held node that was disabled and now is not |
| NodePool.GlobalNodePool.EnsureNodeOutbound | internal/outbound/manager.go:62-100 | a missing outbound is built or its error kept; no view changes |
| NodePool.GlobalNodePool.IsNodeDisabled | internal/topology/pool.go:394-402 | absent, or held by no enabled subscription it refers to |
| NodePool.GlobalNodePool.CleanupSubscriptionNodes | internal/topology/subscription_cleanup.go:14-84 | evicts exactly the held pool nodes both scans found unfit, and drops their references |
| NodePool.GlobalNodePool.DeleteSubscription | internal/service/control_plane_subscription.go:441-475 | all references dropped before the registry entry, with the views as if after it |
| OutboundLifecycle.EveryOutboundOwnedOnce | internal/outbound/manager.go:54-111 | in every interleaving a built outbound is closed at most once and until then is in exactly one place |
| OutboundLifecycle.NothingLeaks | internal/outbound/manager.go:54-111 | when all threads are done each outbound is in one entry of the pool or was closed exactly once, and no entry outside the pool holds one |
| WriteBehind.AlwaysSafe | internal/state/engine.go:98-164 | provided nobody else writes a key between a change and its mark: at every step each key agrees, is dirty, is drained or is owed a mark, and no delete mark stands for a present key unless remarked or owed |
| WriteBehind.SettledMeansEqual | internal/state/engine.go:120-164 | nothing dirty, drained or owed means database and memory are equal |
| WriteBehind.SuccessfulFlushSynchronises | internal/state/engine.go:120-164 | a flush no writer interferes with makes database and memory equal and leaves no mark |
| WriteBehind.FailedFlushUndone | internal/state/dirtyset.go:55-63 | a failed flush leaves database and marks as if never tried |
| WriteBehind.LateDeletionSafe | internal/routing/router.go:468-507 | whatever is flushed or fails in between, a deletion announced by its mark leaves everything safe if nobody else writes its key |
| WriteRaces.AstrayIff | internal/state/engine.go:98-164 | in every interleaving of any number of writers, changing and marking in any order, with the flusher: a key with no mark pending differs between memory and database iff it was struck and not renewed since |
| WriteRaces.NothingLostIff | internal/state/engine.go:120-164 | with nothing left to flush after any such interleaving, memory and database are equal iff no key is struck and not renewed since |
| WriteRaces.MarkFirstLosesUpdate | internal/routing/router.go:222-250 | a run in which a flush between a mark and its change leaves a new value that never reaches the database, with nothing left to flush |
| WriteRaces.LateDeleteMarkLosesUpdate | internal/routing/router.go:806-826 | a run in which a key is deleted, created anew and marked, then marked by the late deletion: the flush removes the row of a present key, with nothing left to flush |
| StateEngine.DirtySet.Drain | internal/state/dirtyset.go:44-53 | hands out all marks and keeps none |
| StateEngine.DirtySet.MarkUpsert | internal/state/dirtyset.go:29-35 | the newest mark wins, other keys keep theirs |
| StateEngine.DirtySet.MarkDelete | internal/state/dirtyset.go:36-42 | the newest mark wins, other keys keep theirs |
| StateEngine.DirtySet.Merge | internal/state/dirtyset.go:55-63 | puts marks back without overriding newer ones |
| StateEngine.ClassifyDirtySet | internal/state/engine.go:98-118 | upserts are exactly the marked keys still present, with their values; deletes the others |
| StateEngine.FlushTx | internal/state/repo_cache.go:361-444 | all upserts, then all deletions, nothing else |
| StateEngine.ClassifiedWrites | internal/state/engine.go:98-164 | classifying then writing gives every drained key the value memory holds |
| StateEngine.Engine.DrainAll | internal/state/engine.go:120-164 | hands out the marks of all five sets |
| StateEngine.Engine.ClassifyAll | internal/state/engine.go:98-164 | the lists of all tables together say exactly what their marks ask for |
| StateEngine.Engine.FlushDirtySets | internal/state/engine.go:120-164 | all five sets committed, or wholly undone |
| OrphanRepair.Cache.RepairConsistency | internal/state/consistency.go:34-64 | the five deletions leave the greatest consistent part of the database |
| OrphanRepair.RepairedStays | internal/state/consistency.go:34-64 | a second repair deletes nothing |
| OrphanRepair.OrderMatters | internal/state/consistency.go:34-64 | with the first two deletions swapped an unheld node survives |
| RoutableView.TargetsAreMembers | internal/platform/routableview.go:113-133 | random targets 0..size-1 correspond one to one to the members |
| RoutableView.SwapRemove | internal/platform/routableview.go:67-83 | slice and index stay inverse, exactly one member goes, the last one fills its place |
| RoutableView.View.Add | internal/platform/routableview.go:53-63 | set insertion |
| RoutableView.View.Remove | internal/platform/routableview.go:67-83 | set removal |
| RoutableView.View.Contains | internal/platform/routableview.go:86-92 | set membership |
| RoutableView.View.Clear | internal/platform/routableview.go:100-109 | the empty set |
| RoutableView.View.SizeIsCardinality | internal/platform/routableview.go:95-97 | the size counter is the number of members |
| RoutableView.View.RandomPick | internal/platform/routableview.go:113-133 | succeeds iff non-empty, with the member at the target's position in scan order |
| RandomRoute.RandomRoute | internal/routing/random.go:26-93 | fails iff the view is empty; else the lower score of the first draw and the first draw different from it |
| RandomRoute.Redraw | internal/routing/random.go:63-73 | up to three more draws, the first node other than the first candidate, and where it was drawn |
| RandomRoute.ChoiceDetermined | internal/routing/random.go:26-93 | the choice is unique and always a member of the view |
| LatencyTable.BlendBetween | internal/node/latency.go:310-335 | for every weight in [0,1] the truncated new average lies between the old one and the sample |
| LatencyTable.StepKeeps | internal/node/latency.go:217-295 | authorities are never evicted, a regular domain leaves only when the partition is full and it is a least recently accessed one, the table never becomes empty again |
| LatencyTable.AlwaysFits | internal/node/latency.go:74-158 | over every run each domain is in one partition and the regular one within its capacity, and throttled stamps lag true accesses by less than the interval |
| LatencyTable.NearLeastRecent | internal/node/latency.go:100-128 | over every run an evicted domain was, within the touch interval, accessed no later than each regular domain kept |
| LatencyTable.CellsCount | internal/node/latency.go:202-215 | the partition is full iff no slot is free |
| LatencyTable.LatencyTable.ValidFits | internal/node/latency.go:23-45 | slots with unique keys stand for two disjoint maps within capacity |
| LatencyTable.LatencyTable.UpdateClassified | internal/node/latency.go:74-98 | the slot-level update is exactly the table-level one, with the emptiness and evicted domain reported |
| LatencyTable.LatencyTable.LoadEntryClassified | internal/node/latency.go:138-158 | the same for recovered entries, stamped with their own time |
| LatencyTable.LatencyTable.GetDomainStats | internal/node/latency.go:102-128 | returns the domain's statistics and refreshes only a stale stamp |
| LatencyTable.LatencyTable.PopDomain | internal/node/latency.go:217-233 | takes the key out of whichever partition holds it |
| LatencyTable.LatencyTable.UpsertRegular | internal/node/latency.go:250-295 | takes room if any, else the place of a least recently accessed domain |
| RulePrefix.SegmentsCollideIff | internal/proxy/account_matcher.go:182-191 | two normal forms have the same segments iff equal or differing in one slash after a bare host |
| RulePrefix.NormalFormStays | internal/proxy/rule_prefix.go:16-39 | normalisation is idempotent and keeps the path |
| RulePrefix.HeadersKeyInjective | internal/proxy/account_matcher.go:55-57 | non-empty NUL-free header lists are told apart by their tie-break key |
| RulePrefix.ReplaceTrans | internal/proxy/account_matcher.go:45-53 | replacement is transitive |
| RulePrefix.TiedIff | internal/proxy/account_matcher.go:45-53 | two rules tie iff neither replaces the other iff they agree in time, raw prefix and key |
| RuleWinners.CollectWins | internal/proxy/account_matcher.go:60-80 | the pass keeps, for every normalised prefix that occurs, the earliest of its unbeaten rules |
| RuleWinners.AnyOrderIff | internal/proxy/account_matcher.go:60-80 | every permutation of the rules keeps the same ones iff no normalised prefix has two different unbeaten rules |
| RuleWinners.StoredRulesAnyOrder | internal/state/migrations/state/000001_state_base.up.sql:33-37 | rules as the table holds them, keyed by the prefix as written, may be listed in any order |
| RuleWinners.NulFreeAnyOrder | internal/proxy/account_matcher.go:55-57 | so may any rules with non-empty lists of NUL-free headers |
| RuleTrie.OrderIrrelevant | internal/proxy/account_matcher.go:60-97 | then every permutation answers every request alike |
| RuleTrie.TiedRulesDependOnOrder | internal/proxy/account_matcher.go:45-57 | that the condition is needed: two rules for one written prefix, which no table holds, answer differently in the two orders |
| RuleTrie.ShadowedIff | internal/proxy/account_matcher.go:182-208 | a rule with headers is out of action iff it is for a bare host and the host with a slash has a rule |
| RuleTrie.ShadowedRule | internal/proxy/account_matcher.go:182-208 | two rules for "a" and "a/" with different headers: a request for host a is answered by the second, and the first answers nothing |
| RuleTrie.ChosenUnique | internal/proxy/account_matcher.go:109-147 | the longest-prefix scan has exactly one answer |
| RuleTrie.DeepestIsChosen | internal/proxy/account_matcher.go:124-147 | the deepest term with headers on the way down is the scan's choice |
| RuleWinners.CollectWinners | internal/proxy/account_matcher.go:60-80 | the pass over the rules, in place |
| AccountMatcher.AccountMatcher.InsertSegments | internal/proxy/account_matcher.go:193-208 | changes the term at exactly that path |
| AccountMatcher.BuildAccountMatcher | internal/proxy/account_matcher.go:60-97 | the trie and wildcard hold exactly the winners |
| AccountMatcher.AccountMatcher.MatchWithPrefix | internal/proxy/account_matcher.go:109-147 | returns what the longest-prefix scan over the winners chooses, wildcard last |
| Pagination.Repo.List | internal/requestlog/repo.go:277-334 | truncating each database to limit+1 before merging still gives the page of the whole sorted listing of all databases that answer, with the right continuation flag and cursor |
| Pagination.QueryLogs | internal/requestlog/repo.go:546-631 | the first rows of one database's matching rows in time-descending, id-ascending order |
| Pagination.MergedPage | internal/requestlog/repo.go:309-334 | the merged, sorted and cut rows are the page of the union |
| Pagination.RestIsPastCursor | internal/requestlog/repo.go:610-622 | what matches past a page's cursor is exactly the rest of the listing |
| Pagination.PagesAreComplete | internal/requestlog/repo.go:277-334 | following cursors to the end lists every matching row exactly once, in order |
| Pagination.PagesEnd | internal/requestlog/repo.go:277-334 | n pages with more to come mean more than n times limit rows, so following cursors ends |
| Metrics.AggregatesExactly | internal/metrics/manager.go:460-515 | with both snapshots of one moment each scope's bucket gains exactly what its counter moved |
| Metrics.RequestsConserved | internal/metrics/manager.go:460-663 | at every moment, over any database, with failures, retries and a shutdown: rows found plus requests recorded equal rows now, plus rows overwritten, plus queued, in hand, current and not yet aggregated |
| Metrics.RowsAccountIff | internal/metrics/repo.go:98-142 | the rows alone account for every request iff no bucket was written over a row with requests in it |
| Metrics.AllWritten | internal/metrics/manager.go:550-663 | when everything is written each bucket's rows are exactly its counts and all other rows are as found |
| Metrics.AlwaysInv | internal/metrics/manager.go:539-663 | bucket starts are aligned and pairwise different, and global counts equal platform counts plus unattributed ones |
| Metrics.AdvanceInv | internal/metrics/bucket.go:182-213 | a flush moves the start by at least one width, whatever the clock did |
| Metrics.ShutdownInv | internal/metrics/bucket.go:217-249 | the flush forced at shutdown keeps every invariant |
| Metrics.WriteHeadInv | internal/metrics/manager.go:605-635 | writing a bucket again after a partial write touches no other bucket's rows and keeps every invariant |
| Metrics.SplitSnapshotsCountTwice | internal/metrics/manager.go:460-515 | snapshots read apart count one request twice in the global scope |
| Metrics.AggregateExactIff | internal/metrics/manager.go:460-515 | one aggregation over any two snapshots: the global scope gains exactly its counter's move iff the platform deltas leave a sane remainder |
| Metrics.SlippedInExactIff | internal/metrics/collector.go:92-110 | with requests recorded between the snapshots, exactly when the unattributed requests waiting outweigh those with a platform |
| Metrics.GlobalTotalExactIff | internal/metrics/manager.go:460-515 | over any run of aggregations with snapshots read apart, the global total gains at least what its counter moved, and exactly that iff every aggregation left a remainder that is not negative |
| Metrics.RestartLosesRows | internal/metrics/manager.go:168-183 | two runs, the second restarted within the first one's bucket: two requests recorded and written, one left in the row |
| MetricsManager.Manager.AggregateCollectorDeltas | internal/metrics/manager.go:460-515 | the loop over platforms, in any order, is the specified aggregation |
| MetricsManager.Manager.RecordRequest | internal/metrics/collector.go:92-110 | one request moves the global counter and its platform's |
| MetricsManager.Manager.AdvanceAndMaybeFlush | internal/metrics/manager.go:539-548 | aggregation and flush as one uninterrupted step |
| MetricsManager.Manager.EnqueuePersistTask | internal/metrics/manager.go:637-644 | a bucket in hand goes to the end of the queue |
| MetricsManager.Manager.AddRequestCounts | internal/metrics/bucket.go:110-133 | clamped counts reach the global scope and the platform's, once each |
| MetricsManager.Manager.MaybeFlush | internal/metrics/bucket.go:182-213 | hands out the bucket iff its time is over, and starts the next aligned one |
| MetricsManager.Manager.ForceFlush | internal/metrics/bucket.go:217-249 | hands out the current bucket before its time unless nothing is in it |
| MetricsManager.Manager.Stop | internal/metrics/manager.go:168-183 | the last aggregation and the forced flush as one step |
| MetricsManager.Manager.FlushPendingTasks | internal/metrics/manager.go:550-567 | writes in queue order and stops at the first attempt that is not complete |
| MetricsManager.FlushAllKeeps | internal/metrics/manager.go:550-567 | flushing with any failures keeps all buckets and their order, and empties the queue if every attempt completes |

## Left out

- HTTP handlers, JSON, the web interface, the command line, configuration and logging: plumbing without a hard invariant.
- The network data plane, DNS, GeoIP downloads and outbound construction: sockets and foreign libraries; a build is an outcome given from outside.
- SQL execution, migrations and the database engine: tables are finite maps or sets and a transaction happens wholly or not at all.
- Hashing, regular expressions, public suffixes, GeoIP lookup, text case folding, address parsing and random numbers: fixed functions or values given from outside; node hashes are injective.
- 64-bit overflow of counters and times: integers are unbounded.
- Floating point: latency scores are integers, and the decay weight is any real in [0,1].
- The memory model below one atomic operation: each load, swap, map access and queue operation is one step, and one table update with its events is one step.
- Scheduling, timers, worker pools and liveness: only safety of every step and what holds at rest.
- Several platforms' routing states at once: they share nothing, so each is modelled alone.
- Platform settings changing during a run: limit and window are fixed, as is the filter between two replacements of a platform.
- Platform: the routing settings of a platform and its filter (PlatformFilter) are modelled apart, as no operation needs both.
- AccountWindow.IPAccountWindow.RefreshOnHit: the counters of refusals and fallbacks are specified for one call, not over runs.
- Router.PlatformRoutingState.UpsertLease: the window activity and event are one step with the table update, which the code does right after it.
- ProbeProtocol: flags are a record of bits and probing itself is one step; the compare-and-swap loops are steps of a state machine rather than methods.
- NodePool.GlobalNodePool: a view is a set here, its sharded form being proved separately in RoutableView; entries are values rather than shared pointers; operations on one subscription do not overlap, as its operation lock ensures.
- NodePool.GlobalNodePool.StartAttempt: an attempt's number and configuration version are taken in one step, while the code reads one after the other.
- NodePool.GlobalNodePool.RegisterPlatform: the service builds the view and registers the platform in two calls; here they are one step, so a node change between them, which the new view would miss, does not occur.
- NodePool.GlobalNodePool.ReplacePlatform: the code builds the new view first and publishes it under the platform lock afterwards; here both are one step, so a node change between them, which the new view would miss, does not occur. The refusal when another platform has the new name is not modelled, platforms having no names here.
- NodePool.GlobalNodePool.ReconfigureSubscription: whether the source changed is given, not found by comparing.
- NodePool.GlobalNodePool.HandleUpdateFailure: the error and times a failed refresh records, and the guards against recording a stale one, are not modelled; no managed node depends on them.
- NodePool.GlobalNodePool.SetSubscriptionEnabled: the probes triggered after the outbound checks are not part of the step.
- OutboundLifecycle: closing an outbound has no effect other than being counted.
- RandomRoute.RandomRoute: the latencies two nodes are compared by are given, not looked up.
- RoutableView.View: locking of single shards, so a pick concurrent with a removal is not modelled.
- LatencyTable.LatencyTable: distinct domains may share a key as in the code; averages over several domains are left out.
- TopologyRuns.ReenabledNodeUnseen: the start-up state is given - a node with latency and address read back and no outbound - and not derived from a modelled reading of the database.
- WriteBehind.AlwaysSafe: supposes that nobody else writes a key between a change and its mark, which DeleteLease and RemoveNodeFromSub do not ensure; what happens without it is WriteRaces.
- ViewRaces: one platform, already registered; the read of the list of platforms to notify is part of the change, so unregistering and replacing are not steps there.
- Pagination.Repo.List: rows, and which databases answer, do not change between the pages of one listing.
- MetricsManager.Manager: traffic, probe and lease samples, latency histograms and realtime rings, which follow the same queue with easier sums; aggregations after shutdown.
- Subscription body parsing: a refresh takes the parsed list of tags and non-empty raw options.
