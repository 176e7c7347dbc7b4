# rsync-proxy, modelled and verified

A Dafny model of the parts of rsync-proxy and rsync-gateway that turn cluster objects into an
admission-controlled relay, with proofs about every input, every run and every interleaving.
`dafny verify dfyconfig.toml` checks the whole project.

| file | what it models |
|---|---|
| `Ordering`, `GatewayApi` | string order and sorting; the cluster objects and the order on `namespace/name` |
| `AdmissionQueue`, `AdmissionQueueImpl` | the queue as a step function and as the lock-protected class that implements it |
| `StatusChannels` | the queue's capacity-1 status channels, with consumers receiving between any two actions |
| `PerIpCap` | connections of many addresses going through counter, queue and release, interleaved |
| `Claims`, `Binding`, `Conflicts`, `Backends` | claiming classes, binding parents, module conflicts, resolving backends |
| `Translate`, `ServerConfig`, `Rebuild` | from validated specs and bound routes to the server configuration |
| `ModuleIndex`, `ServerReload`, `DataPlane` | the module index, loading a configuration into a running server, and into one server per bind address |
| `EndToEnd`, `ControlLoop` | the whole way from cluster to lookup, and a whole reconcile with its status pass |
| `Conditions`, `Statuses`, `StatusPass` | status conditions, the statuses of each object, and the pass that writes them back |
| `Watcher`, `FloorGuarantee` | the relay watcher, and what its throughput floor guarantees |
| `Handshake`, `Listing` | the upstream handshake and its handoff, the module listing |

How it is modelled:

- Iterating a Go map is taking elements of its key set in any order. Methods that do so are
  proved equal to a function of the inputs, which is determinism.
- Queue handles are numbered in the order of arrival. The lock holder's channel operations are
  a list of pending actions; a drain and the send after it are two actions.
- Label selectors, duration parsing, address resolution, module discovery, key pairs and log
  files are parameters (`Env`, `Io`). Clock readings are parameters too; a status pass reads the
  clock once.
- Kubernetes names contain no slash (type `Label`), so `namespace/name` orders strictly.
- Seconds become nanoseconds with 64-bit wrap-around; the target index uses 32-bit FNV-1a.
- The watcher's time is in nanoseconds since the relay started, and ticks come on time.

Where the code and its documentation or an expected property part ways:

- `max_queued_connections` is documented as the longest the queue gets, with 0 for no queueing
  (the program's `README.md:147`). The code takes 0 as no limit: `AdmissionQueue.WaitingLimitIff`
  says exactly when the documented limit holds, and `OneTooMany` is the run that breaks it.
- The throughput floor is documented as a sliding window (the program's `README.md:130-131`).
  `FloorGuarantee.FloorIsGuaranteedOver` gives the exact length over which it is guaranteed, for
  every setting of the limits. With no duration cap, or one that leaves room for two samples
  after the first, that is almost twice the window unless a short idle timeout forces the bytes
  sooner; `SlidingWindowIff` says exactly when the documented window is guaranteed.
- Generated upstream names can collide. `Translate.SharedNameIff` says for which keys and
  indexes, `OneRouteIff` when one route loses backends, `Rebuild.DescribesIffNoClash` and
  `EndToEnd.MeaningIff` when the table is right all the same, and `OrderFreeIff` when replicas
  can differ.
- A GatewayClass or GatewayConfig with a condition besides Accepted, or a Gateway one of whose
  rsync listeners has its name shadowed by an earlier listener of another protocol, is rewritten
  on every rebuild. `StatusPass.SecondRebuildIsQuiet` says exactly when nothing is written.
- Malformed allowed routes are meant to surface on the listener (`internal/gateway/status.go:136-138`);
  a selector that does not parse does not (`Statuses.SurfacesIff`).
- A TLS listener is reported not accepted and still admits routes (`Statuses.NotAcceptedAdmitsIff`).
- Gateways are reported programmed even when the apply failed (`ControlLoop.FalseNewsIff`).
- A failed apply is not undone on the servers that came before it (`DataPlane.Apply`).
- An upstream whose version line does not fit the 256-byte buffer has that line sent to the
  client (`Handshake.RelayUpstream`).
- A MOTD whose last line is not blank puts stray names into a listing that is read back
  (`Listing.ListingRoundTrip`).

## Model

| member | source | states |
|---|---|---|
| `AdmissionQueue.StepKeepsInv` | pkg/queue/queue.go:71-156 | every operation keeps: `active + queued` is in arrival order without repetition and holds exactly the live, non-rejected handles, and nobody waits while a slot is free |
| `AdmissionQueue.EveryRun` | pkg/queue/queue.go:71-169 | over every run from an empty queue the invariant holds and no active handle has overtaken an earlier live one |
| `AdmissionQueue.StepRefines` | pkg/queue/queue.go:71-156 | the two lists with their promotion loops are one line and a watermark: everything when unlimited, else the larger of the surviving watermark and min(length, max) |
| `AdmissionQueue.RunRefines` | pkg/queue/queue.go:71-156 | the same for every run |
| `AdmissionQueue.PromoteIsWatermark` | pkg/queue/queue.go:74-76 | the promotion loop moves the watermark and nothing else |
| `AdmissionQueue.ActiveNeverGrowsPastMax` | pkg/queue/queue.go:71-156 | an operation that grows the active list leaves it within the limit |
| `AdmissionQueue.WaitingGrows` | pkg/queue/queue.go:81-100 | only an arrival without a slot makes the waiting list longer, and then within a positive limit |
| `AdmissionQueue.WaitingLimitIff` | pkg/queue/queue.go:91-98 | the waiting list stays within its limit over every run between resizes exactly when the limit is positive, or zero with unlimited slots |
| `AdmissionQueue.OneTooMany` | pkg/queue/queue.go:81-100 | the failing run: without a positive limit, one arrival more than there are slots waits |
| `AdmissionQueue.RemoveIsIdempotent` | pkg/queue/queue.go:123-156 | removing a handle that has left changes nothing |
| `AdmissionQueue.WaiterStep` | pkg/queue/queue.go:81-156 | one operation brings a waiter one place nearer exactly when it is a first release ahead of it, and admits it from Index 0 |
| `AdmissionQueue.StaysActive` | pkg/queue/queue.go:123-156 | an admitted handle stays admitted until it is released |
| `AdmissionQueue.ExactFairness` | pkg/queue/queue.go:94-177 | between resizes a waiter with Index k is admitted exactly when k + 1 handles ahead of it have been released for the first time, whatever else is interleaved |
| `AdmissionQueue.SentPlaces` | pkg/queue/queue.go:81-185 | every status an operation sends is the admission, the refusal, or the place of a waiter in the new state: the handles beyond the limit up to it and in all |
| `AdmissionQueue.EveryoneIsTold` | pkg/queue/queue.go:71-79 | a resize or a first release tells everybody who still waits the new place |
| `AdmissionQueueImpl.Queue.constructor` | pkg/queue/queue.go:39-41 | a new queue is empty |
| `AdmissionQueueImpl.Queue.SetMax` | pkg/queue/queue.go:71-79 | resizing performs the SetMax step and exactly its channel actions |
| `AdmissionQueueImpl.Queue.Acquire` | pkg/queue/queue.go:81-100 | admits, refuses or queues as the step does, with the same channel actions |
| `AdmissionQueueImpl.Queue.PopFront` | pkg/queue/queue.go:115-121 | the head moves to the active list after its admission is sent and its channel closed |
| `AdmissionQueueImpl.Queue.PromoteWhileFree` | pkg/queue/queue.go:152-154 | the loop computes the promotion function and its actions |
| `AdmissionQueueImpl.Queue.ReleaseFromHandle` | pkg/queue/queue.go:123-156 | the filtering and promotion loops compute the removal function and its actions |
| `AdmissionQueueImpl.Queue.Release` | pkg/queue/queue.go:159-169 | a first release performs the Release step, a repeated one nothing |
| `AdmissionQueueImpl.Queue.BroadcastStatus` | pkg/queue/queue.go:172-177 | every waiter is sent its position, in order |
| `AdmissionQueueImpl.Queue.TrySend` | pkg/queue/queue.go:179-185 | a send is a drain followed by a send, two separate actions |
| `StatusChannels.ExecIs` | pkg/queue/queue.go:179-185 | what each action does to a channel of capacity one, and exactly when it blocks or panics |
| `StatusChannels.RecvIs` | pkg/server/server.go:904-925 | receiving takes the buffered status, yields the zero status from a closed empty channel and otherwise waits |
| `StatusChannels.ExecOk` | pkg/queue/queue.go:179-185 | the lock holder's next action never blocks or panics and leaves its channel in order |
| `StatusChannels.RecvOk` | pkg/server/server.go:902-938 | a consumer may receive at any point without disturbing what is pending |
| `StatusChannels.NextKeeps` | pkg/queue/queue.go:71-185 | every event of every interleaving keeps the channel invariant |
| `StatusChannels.ChannelSafety` | pkg/queue/queue.go:81-185 | in every interleaving no send blocks or hits a closed channel, no channel is closed twice, and each consumer reads Full alone or positions followed by one Ok |
| `StatusChannels.AdmissionIsNeverMissed` | pkg/server/server.go:902-938 | with the lock free an admitted consumer has read its Ok or finds it in its channel, and nobody still waiting is sent one |
| `StatusChannels.PositionHonesty` | pkg/queue/queue.go:94-177 | an unread status of the i-th waiter has Index `len(active) - max + i`, with 0 <= Index < Max <= the current total |
| `StatusChannels.PositionsNeverIncrease` | pkg/queue/queue.go:135-177 | until the next resize the positions a consumer reads never increase |
| `PerIpCap.PerIpCapHolds` | pkg/server/server.go:885-903 | in every interleaving the counter is holders plus in-flight undos, at most the cap hold it, and an address has at most that many entries in the two lists together |
| `PerIpCap.LetInIff` | pkg/server/server.go:890-899 | in every reachable world an arriving connection is let in exactly when the holders and in-flight undos of its address are together fewer than the cap, and otherwise undoes |
| `PerIpCap.NotRefusedBelowCap` | pkg/server/server.go:890-899 | with no undo in flight an address with fewer holders than the cap is never refused |
| `PerIpCap.HolderSteps` | pkg/server/server.go:892-903 | a holder gets a handle of its own in the line or among the rejected, then leaves the line, and gives the counter back by one at the very end, as an undo does |
| `Ordering.StringLessIff` | internal/controller/reconciler.go:230-230 | one string is before another exactly when it ends first or is smaller at the first difference |
| `GatewayApi.KeyStringInjective` | internal/controller/reconciler.go:170-170 | slash-free names make `namespace/name` injective |
| `GatewayApi.KeyLessIsStrictTotal` | internal/controller/reconciler.go:230-230 | the order on `namespace/name` is strict and total |
| `Claims.ValidateIsExact` | api/v1alpha1/gatewayconfig_validation.go:15-58 | validation passes exactly the specs whose limits are non-negative and whose durations parse to non-negative ones |
| `Claims.ClaimClasses` | internal/gateway/claim.go:57-75 | the claims do not depend on the order of iteration |
| `Claims.AcceptedClaimIsSound` | internal/gateway/claim.go:57-102 | a claim is accepted exactly when it carries a configuration, which is then the cluster's one of that name and sound |
| `Claims.ClaimIff` | internal/gateway/claim.go:57-102 | a class is claimed exactly when it names this controller, and accepted exactly when, besides, its reference names a sound cluster-scoped GatewayConfig; the claim then carries that one |
| `Backends.ReferenceGrantPermits` | internal/gateway/backends.go:97-119 | the nested search finds a covering grant exactly when there is one |
| `Backends.ProblemIff` | internal/gateway/backends.go:56-81 | a reference has no problem exactly when it names a core Service with a port that exists in its own or else the route's namespace, which is the route's or grants the reference; and the exact condition of each of the three reasons |
| `Backends.ResolveBackends` | internal/gateway/backends.go:38-92 | computes the usable backends in spec order and the first problem |
| `Backends.UsableMembers` | internal/gateway/backends.go:38-92 | a backend is usable exactly when it is the target of a reference of non-zero weight that resolves in that sense |
| `Backends.StatusIsExact` | internal/gateway/backends.go:38-92 | references resolve exactly when each does in that sense, weight aside |
| `Backends.StatusIsFirst` | internal/gateway/backends.go:42-48 | a status that does not resolve is that of the first reference that does not |
| `Binding.EffectiveModules` | internal/gateway/bind.go:228-233 | a route always serves at least one module |
| `Binding.GatewayKeyIs` | internal/gateway/bind.go:61-79 | which Gateway a reference names, with the defaults for group, kind and namespace |
| `Binding.AdmitsIff` | internal/gateway/bind.go:159-224 | a listener admits a route exactly when its kinds are absent or include RsyncRoute of this group and its namespaces are all, the Gateway's own by name or by default, or those of a selector that parses and matches the route's labels |
| `Binding.CandidatesAre` | internal/gateway/bind.go:100-123 | the candidates are the rsync listeners or, under a section name, the first rsync listener of that name |
| `Binding.AttachIsFirst` | internal/gateway/bind.go:126-132 | a route attaches to the first candidate that admits it |
| `Binding.BindParentIsExact` | internal/gateway/bind.go:58-141 | a reference binds exactly when it names a Gateway of an accepted class of ours with a candidate listener that admits the route, and then carries such a listener |
| `Binding.BindReason` | internal/gateway/bind.go:69-140 | the exact condition of each reason for a reference that does not bind |
| `Conflicts.BindRoutes` | internal/gateway/bind.go:44-55 | the binding results, messages included, do not depend on the order of iteration |
| `Conflicts.ResolveModuleConflicts` | internal/gateway/bind.go:241-297 | the in-place greedy resolution computes the age-ordered solution |
| `Conflicts.ResolveOn` | internal/gateway/bind.go:255-295 | on one Gateway exactly the losing routes' entries for it flip, nothing else |
| `Conflicts.WinnersIff` | internal/gateway/bind.go:241-297 | an entry accepted before conflicts stays exactly when no route that stays accepted at that Gateway shares a module and was created earlier, or at the same time with a smaller `namespace/name`; all other entries stay as they were |
| `Conflicts.FirstStays` | internal/gateway/bind.go:256-262 | the oldest route bound at a Gateway keeps its entries, ties going to the smaller `namespace/name` |
| `Conflicts.SolutionIsUnique` | internal/gateway/bind.go:241-297 | there is only one such solution, messages included |
| `Conflicts.SurvivorsAreTheFixpoint` | internal/gateway/bind.go:255-295 | the only set in which a bound route is exactly when no older member shares a module is the set of survivors |
| `Conflicts.LoserHasOlderWinner` | internal/gateway/bind.go:271-285 | every loser is blamed on its first taken module and its older surviving owner |
| `Conflicts.SolutionMeaning` | internal/gateway/bind.go:241-297 | an entry stays accepted exactly when its route survives; a changed one names an older winner that shares the module |
| `Conflicts.AcceptedAreDisjoint` | internal/gateway/bind.go:241-297 | two routes accepted at one Gateway serve disjoint modules |
| `Conflicts.NoPreemption` | internal/gateway/bind.go:255-295 | adding routes created later than all existing ones, or at the same time with a greater `namespace/name`, changes no existing binding result on any Gateway |
| `Conflicts.BindingIgnoresStatus` | internal/gateway/bind.go:44-55 | binding results depend on no status |
| `ServerConfig.Wrap64Is` | pkg/server/server.go:403-422 | wrap-around gives the signed 64-bit number that differs by a multiple of 2^64 |
| `ServerConfig.SecondsExact` | pkg/server/server.go:403-422 | the conversion to nanoseconds is exact when it does not overflow |
| `Translate.FoldIs` | internal/translate/translate.go:48-57 | letters are lower-cased, digits and hyphens kept, everything else becomes a hyphen |
| `Translate.DigitsStandFor` | internal/translate/translate.go:47-47 | the decimal text of an index reads back as that index |
| `Translate.BuildUpstreamName` | internal/translate/translate.go:46-63 | the sanitising loop and the cut at 63 compute the upstream name: 1 to 63 letters, digits and hyphens |
| `Translate.SharedNameIff` | internal/translate/translate.go:46-63 | two backends share a name exactly when, uncut, index and folded route text agree, or when both reach the cut and agree up to it |
| `Translate.NamesCollide` | internal/translate/translate.go:46-63 | two different routes that share a name uncut |
| `Translate.LongRouteShares` | internal/translate/translate.go:59-61 | where namespace and name take 61 characters or more, all backends of a route share one name |
| `Translate.OneRouteIff` | internal/translate/translate.go:46-63 | the backends of one route have different names exactly when the last index still fits uncut |
| `Translate.DurationFaithful` | internal/translate/translate.go:69-81 | a valid duration is cut to whole seconds, never overflows on the way back and never grows |
| `Translate.SettingsAreSound` | internal/translate/translate.go:89-153 | for a sound spec translation succeeds and passes every check of the server on limits; MOTD, per-IP cap and floor are the spec's or their defaults, durations are its whole seconds, and only a window or grace below a second gives way to 60 s or the window |
| `Translate.BuildServerConfig` | internal/translate/translate.go:158-191 | succeeds exactly when settings and every route are sound, then gives the table; the nil dereference needs a route with backends and no spec |
| `Translate.TableOrigin` | internal/translate/translate.go:167-189 | every entry of the table is the last of its name of some route |
| `Translate.LastNamedStays` | internal/translate/translate.go:180-187 | of a route's backends with one name the last stays |
| `Translate.TableHasNames` | internal/translate/translate.go:167-189 | every backend's name is in the table |
| `Rebuild.BoundGatewaysFor` | internal/controller/reconciler.go:220-232 | the distinct Gateways a route is accepted at, in order |
| `Rebuild.CollectInputs` | internal/controller/reconciler.go:180-212 | the input of every served route is collected once, in some order |
| `Rebuild.ChoosePrimary` | internal/controller/reconciler.go:163-178 | the scan finds the configuration of the least managed Gateway whatever the order |
| `Rebuild.HomesAreManaged` | internal/controller/reconciler.go:180-207 | an accepted parent is a Gateway of an accepted class of ours |
| `Rebuild.ServedIsSound` | internal/controller/reconciler.go:198-209 | every accepted binding leads to a non-nil validated configuration |
| `Rebuild.BuildTable` | internal/controller/reconciler.go:159-216 | building never errors and never panics and its settings pass the server's checks; for every name the last backend of some route wins, and the table says what the cluster state says exactly when no names clash |
| `Rebuild.RebuildTable` | internal/controller/reconciler.go:81-84 | the whole rebuild yields the claims and bindings the cluster state determines, and such a table |
| `Rebuild.DescribesIffNoClash` | internal/translate/translate.go:167-189 | a table in which the last wins describes the served routes exactly when backends that share a name are reached in the same way |
| `Rebuild.OrderFreeIff` | internal/controller/reconciler.go:181-211 | the table is the same for every order of the routes exactly when routes that give the same name agree on their last backend of it |
| `Rebuild.BuiltIsUnique` | internal/controller/reconciler.go:159-216 | where routes agree, two replicas come up with the same table |
| `ModuleIndex.BuildModuleTargets` | pkg/server/server.go:618-626 | the index gives each module its targets in upstream order and lists no module without one |
| `ModuleIndex.TargetsMembers` | pkg/server/server.go:618-626 | a module's targets are exactly those of the upstreams that list it |
| `ModuleIndex.IndexIsUnique` | pkg/server/server.go:618-626 | the upstream list determines the index |
| `ModuleIndex.FnvVectors` | pkg/server/server.go:765-767 | the hash agrees with the published 32-bit FNV-1a test vectors |
| `ModuleIndex.ChooseTarget` | pkg/server/server.go:752-768 | a client goes to the hash of its address modulo the number of targets, in range, and to the first without an address or a choice; the only panic is a 32-bit target count of zero |
| `ServerReload.ListUpstreams` | pkg/server/server.go:337-384 | succeeds exactly when every upstream passes its checks, and then lists them in name order, resolved |
| `ServerReload.MakePlan` | pkg/server/server.go:292-384 | the checks before the reload lock pass exactly for plannable configurations |
| `ServerReload.Server.UpdateQueues` | pkg/server/server.go:469-481 | a queue that stays is the same object resized, a new one is fresh, and no two names share one |
| `ServerReload.Server.LoadConfig` | pkg/server/server.go:281-433 | a load succeeds exactly for acceptable configurations; a failed one leaves modules, upstreams, timings, certificate and queues alone; names that stay keep their queue object |
| `ServerReload.LoadedUpstream` | pkg/server/server.go:343-370 | after a load every configured upstream has a queue with exactly its two limits and a listed entry with its address, PROXY flag and modules, its own per-IP cap or, when that is 0, the proxy's |
| `ServerReload.LoadedTimings` | pkg/server/server.go:403-427 | after a load every timing is the configured number of seconds, window and grace with their defaults, where none overflows |
| `ServerReload.ReloadSafety` | pkg/server/server.go:281-481 | in every run of loads and queue operations the queues are keyed by exactly the upstream names, every target has a queue and every queue is in order |
| `ServerReload.LoadKeepsHandles` | pkg/server/server.go:469-481 | an upstream that stays keeps its live handles in order, and nobody admitted is put back |
| `ServerReload.QueueSurvivesReloads` | pkg/server/server.go:469-481 | across any reloads the queue of an upstream that stays goes through one run of queue operations |
| `ServerReload.UseServes` | pkg/queue/queue.go:81-156 | while connections come and go the server keeps serving the configuration it loaded |
| `ServerReload.LoadServes` | pkg/server/server.go:281-433 | after a load the server serves the configuration, each queue with its limits |
| `ServerReload.ReloadIsIdempotent` | pkg/server/server.go:403-481 | loading the configuration already served changes nothing, not even a place in a queue |
| `ServerReload.SameLoadAgain` | pkg/server/server.go:403-481 | a load, any queue operations and the same load again: the second load changes nothing |
| `DataPlane.Apply` | internal/dataplane/dataplane.go:137-144 | the servers before the first refusal have loaded the configuration, that server and the rest are as they were |
| `DataPlane.NothingChangedIff` | internal/dataplane/dataplane.go:137-144 | a round leaves every server as it was exactly when the ones that accepted served the configuration already |
| `EndToEnd.MeaningIff` | internal/controller/reconciler.go:180-216 | after loading a table of served routes the server serves exactly what the cluster says if and only if every module and address reached is in the table |
| `EndToEnd.BuiltCarries` | internal/translate/translate.go:167-189 | a built table has all of them when no names clash, and, where routes agree, exactly when the last backends of the names cover them |
| `EndToEnd.MeaningIsPreserved` | internal/controller/reconciler.go:180-216 | after loading the compiled table a module offers exactly the addresses of usable backends of accepted routes that serve it, and is absent when there are none |
| `EndToEnd.OnlyAddressesCanFail` | pkg/server/server.go:292-370 | a compiled table is refused only over an address or a TLS listener |
| `ServerReload.ListIsUnique` | pkg/server/server.go:337-384 | a configuration determines the upstream list |
| `EndToEnd.ReplicasAgree` | internal/controller/reconciler.go:73-101 | replicas that see the same state end with the same upstreams, target sequences and timings, whatever resolvers and files answer each, where routes that give the same name agree |
| `EndToEnd.TimingsArePreserved` | pkg/server/server.go:403-426 | after a load every timing is within a second below what the primary configuration asks for, but for the defaults of the floor, and the floor's bytes are exactly those asked for |
| `EndToEnd.LimitsArePreserved` | internal/translate/translate.go:158-191 | after a load of the built table the queue of a served backend has the limits that the GatewayConfig ruling its route asks for, and its upstream that configuration's per-IP cap or else the primary's |
| `EndToEnd.Dispatch` | pkg/server/server.go:860-878 | a client is refused exactly for an unknown module and otherwise sent to a target the table offers |
| `EndToEnd.Reconcile` | internal/controller/reconciler.go:81-93 | one reconcile never errors before the apply; the servers before the first that cannot take the table have loaded it, and serve exactly what the cluster says if and only if the table carries it; the others are as they were |
| `ControlLoop.ReconcileOnce` | internal/controller/reconciler.go:81-101 | rebuild, apply and status pass together, the pass told of the first refusal |
| `ControlLoop.FalseNewsIff` | internal/gateway/status.go:59-65 | a managed Gateway is reported programmed after every reconcile; configurations in use are reported accepted exactly when every server could take the table |
| `ControlLoop.UnresolvedIsNotTaken` | pkg/server/server.go:337-370 | such a round: an address that does not resolve |
| `ControlLoop.FullRoundServes` | internal/dataplane/dataplane.go:137-144 | after a round that reaches every server, every server serves the table |
| `ControlLoop.SecondRound` | internal/dataplane/dataplane.go:137-144 | another round of the table that is served changes no server, whatever is answered and however far it gets |
| `ControlLoop.SecondReconcile` | internal/controller/reconciler.go:73-101 | a second reconcile of the unchanged cluster gives the same table and leaves every server as it is, and writes nothing exactly when the statuses could settle and the apply ended as before, as far as that is reported |
| `Conditions.ConditionsEqualIff` | internal/gateway/conditions.go:59-79 | two lists are equal exactly when they agree in type, status, reason, message and generation, place by place |
| `Conditions.StableCondition` | internal/gateway/conditions.go:14-23 | carrying a timestamp over never changes a condition's content |
| `Conditions.StableTime` | internal/gateway/conditions.go:14-23 | the time is that of the first existing condition of the same type and status, else now |
| `Conditions.MergeConditions` | internal/gateway/conditions.go:28-56 | the nested loops compute the merge |
| `Conditions.MergedCarries` | internal/gateway/conditions.go:28-56 | after a merge each wanted condition is the only one of its type |
| `Conditions.MergedStays` | internal/gateway/conditions.go:28-56 | merging what is already carried changes nothing |
| `Conditions.MergedKeepsOthers` | internal/gateway/conditions.go:28-56 | conditions of other types survive in order |
| `Conditions.RecordedSettles` | internal/controller/reconciler.go:255-259 | a recorded condition needs no second write exactly when no other condition and no duplicate was there |
| `Conditions.RecordedTwice` | internal/controller/reconciler.go:335-339 | recording again, as for two classes sharing a configuration, changes nothing |
| `Conditions.RecordedReports` | internal/controller/reconciler.go:255-259 | after recording, the list reports the condition with its status, reason, message and generation |
| `Conditions.LaterPasses` | internal/controller/reconciler.go:255-259 | however many passes follow the first, each leaves the conditions alone and writes exactly when another condition or a duplicate was there |
| `Statuses.ListenerStatuses` | internal/gateway/status.go:76-104 | the loops give one entry per rsync listener, in order, with times carried over |
| `Statuses.ConditionsForIs` | internal/gateway/status.go:83-89 | times come from the first entry of the listener's name |
| `Statuses.IsManagedIff` | internal/gateway/status.go:274-281 | a name is ours exactly when the first listener of that name is an rsync listener |
| `Statuses.BuildGatewayStatus` | internal/gateway/status.go:39-72 | foreign entries, then ours, and the merged conditions |
| `Statuses.GatewaySettles` | internal/gateway/status.go:39-104 | after one pass the next writes nothing exactly when no rsync listener's name is shadowed |
| `Statuses.UniqueNamesSuffice` | internal/gateway/status.go:274-281 | unique listener names rule out shadowing |
| `Statuses.ShadowedStatusGrows` | internal/gateway/status.go:39-50 | a shadowed name makes the status grow on every pass |
| `Statuses.ForeignGatewayStatusSurvives` | internal/gateway/status.go:39-72 | foreign conditions and listener entries survive in order, and only a shadowed name adds to the latter |
| `Statuses.GatewayStatusSays` | internal/gateway/status.go:39-182 | after a pass every rsync listener has an entry that says Accepted exactly without TLS and with well-formed allowed routes as far as they are looked at, and Programmed exactly when its port is served |
| `Statuses.MalformedAdmitsNobody` | internal/gateway/bind.go:187-217 | a listener with malformed allowed routes admits no route |
| `Statuses.SurfacesIff` | internal/gateway/status.go:136-158 | malformed allowed routes are reported exactly when it is not the selector that fails to parse |
| `Statuses.BadSelectorIsSilent` | internal/gateway/status.go:136-158 | such a listener: it admits nobody and is reported accepted |
| `Statuses.NotAcceptedAdmitsIff` | internal/gateway/status.go:106-131 | a listener reported not accepted admits a route exactly when it has TLS and its allowed routes admit the route |
| `Statuses.TlsListenerAdmits` | internal/gateway/status.go:106-118 | such a listener: with TLS it admits the routes of its own namespace |
| `Statuses.BoundListenerReport` | internal/gateway/bind.go:100-141 | the listener of a bound parent is reported accepted exactly when it has no TLS |
| `Statuses.BuildRouteStatus` | internal/gateway/status.go:188-221 | entries of other controllers, then one per parent in spec order |
| `Statuses.ExistingForIs` | internal/gateway/status.go:225-239 | times come from this controller's first entry whose reference has the same text |
| `Statuses.RefStringIff` | internal/gateway/conditions.go:173-191 | references to Gateways have the same text exactly when namespace, as given, and name agree |
| `Statuses.RouteSettles` | internal/gateway/status.go:188-235 | after one pass over a route the next writes nothing |
| `Statuses.ForeignParentsSurvive` | internal/gateway/status.go:188-195 | parent entries of other controllers survive in order |
| `StatusPass.WriteStatuses` | internal/controller/reconciler.go:239-345 | whatever the order of iteration the pass computes one result, and counts no write exactly when every status is as wanted |
| `StatusPass.WriteClaim` | internal/controller/reconciler.go:309-343 | one claim's turn in the configuration loop, also when the configuration was visited before |
| `StatusPass.PassIgnoresStatus` | internal/controller/reconciler.go:81-82 | status writes change neither claims nor bindings of the next rebuild |
| `StatusPass.SecondRebuildIsQuiet` | internal/controller/reconciler.go:239-345 | after a successful pass the next rebuild writes nothing exactly when no managed Gateway has a shadowed name, no class or configuration in use has a condition besides Accepted, and the apply ended as before if a configuration reports it |
| `StatusPass.RouteStatusIsTrue` | internal/controller/reconciler.go:283-305 | after a pass every parent's entry says Accepted exactly when the binding is accepted, and then that references resolve exactly when every backend reference does, with the reason of the binding or of the first that does not and the route's generation |
| `StatusPass.ClassReports` | internal/controller/reconciler.go:249-259 | a claimed class reports whether it was accepted, with the claim's reason and message and its own generation |
| `StatusPass.ConfigReports` | internal/controller/reconciler.go:317-339 | a configuration in use reports the outcome of the apply with its error and its own generation |
| `StatusPass.ProgrammedRegardless` | internal/gateway/status.go:59-65 | a managed Gateway is reported programmed whether the apply went well or not |
| `StatusPass.ConfigSaysIff` | internal/controller/reconciler.go:318-339 | a configuration in use is reported accepted exactly when the apply went well |
| `StatusPass.ForeignStatusSurvives` | internal/controller/reconciler.go:239-345 | foreign conditions of classes, configurations and Gateways, foreign listener entries and parent entries of other controllers survive a whole pass in order |
| `Watcher.IntervalIs` | pkg/server/server.go:1049-1069 | the interval is a quarter of the smallest enabled limit, or a second if that is more; limits below 4 ns are passed over |
| `Watcher.IntervalIsQuarter` | pkg/server/server.go:1049-1069 | the interval is within a quarter of every enabled limit exactly when all are at least 4 s |
| `Watcher.WatchRelay` | pkg/server/server.go:1072-1127 | the ticker loop computes the watcher's state function |
| `Watcher.IdleStopIsTimely` | pkg/server/server.go:1088-1098 | an idle termination comes in [idle, idle + interval) after the last activity |
| `Watcher.DurationStopIsTimely` | pkg/server/server.go:1100-1107 | the duration cap ends a relay in [cap, cap + interval) after its start |
| `Watcher.OpenMeansTimely` | pkg/server/server.go:1083-1107 | no open relay is overdue by an interval |
| `Watcher.LatencyIsAtMostAQuarter` | pkg/server/server.go:1041-1069 | with limits of at least 4 s nothing is detected later than 1.25 times its limit |
| `Watcher.SurvivorsMoved` | pkg/server/server.go:1108-1123 | a relay that survived n checkpoints has moved at least n times the floor |
| `Watcher.CheckpointSpacing` | pkg/server/server.go:1108-1123 | checkpoints after the first are in [window, window + interval) of each other |
| `Watcher.FloorStopMeansSlow` | pkg/server/server.go:1108-1120 | a floor termination means less than the floor over at least a window, after grace |
| `FloorGuarantee.NoLongerLull` | pkg/server/server.go:1088-1123 | a relay open past the end of every lull since some moment has moved the floor's bytes since |
| `FloorGuarantee.LullIsExact` | pkg/server/server.go:1049-1123 | for every setting of the limits and from every moment on: a relay can be open with less than the floor moved since exactly before the second sample, the tick at which the idle timeout has forced the bytes one by one, and the cap |
| `FloorGuarantee.FloorIsGuaranteedOver` | pkg/server/server.go:1049-1123 | for every setting, the floor is guaranteed over every span of a length exactly when that is no shorter than the longest lull, which starts at one of four moments |
| `FloorGuarantee.FloorGuaranteeIs` | pkg/server/server.go:1049-1123 | with a late cap or none that is twice the rounded-up window, or what the idle timeout forces if shorter, less a nanosecond |
| `FloorGuarantee.ForcingIs` | pkg/server/server.go:1089-1098 | the idle timeout forces a byte per timeout rounded up to ticks |
| `FloorGuarantee.SlidingWindowIff` | pkg/server/server.go:1075-1123 | with a late cap or none the window itself is guaranteed exactly when the idle timeout forces the floor's bytes within it |
| `FloorGuarantee.SlowSpanCloses` | pkg/server/server.go:1108-1123 | for every setting, a span of 2 x (window + interval) after grace with less than the floor closes the relay |
| `Handshake.ReadLine` | pkg/server/utils.go:71-90 | for every chunking the buffer holds exactly what was taken from the connection, and an error is reported exactly when neither a newline nor the end of the buffer was reached |
| `Handshake.VersionText` | pkg/server/server.go:971-971 | a version line is one that starts with the eight bytes `@RSYNCD:` |
| `Handshake.ReadVersion` | pkg/server/server.go:966-982 | the handshake succeeds exactly for a version line read to its end or to a full buffer |
| `Handshake.SpliceJoins` | pkg/server/server.go:975-982 | nothing is lost, repeated or reordered between buffer and copy loop |
| `Handshake.SpliceIsExact` | pkg/server/server.go:976-982 | the splice is what follows the first newline exactly when that was taken |
| `Handshake.Copy` | pkg/server/server.go:1135-1141 | the copy loop passes on everything it takes, in order |
| `Handshake.RelayUpstream` | pkg/server/server.go:966-999 | for every chunking the client is sent exactly the stream after its first newline, if the newline is in the first 256 bytes, and otherwise the version line too |
| `Listing.ListAllModules` | pkg/server/server.go:779-798 | prints the sorted names and the end mark after the MOTD, whatever the order of iteration |
| `Listing.ReadListing` | pkg/server/server.go:717-739 | the line loop computes the reading function |
| `Listing.FirstWordIs` | pkg/server/server.go:730-736 | a line lists its first word, after any blanks |
| `Listing.AsciiSpaces` | pkg/server/server.go:730-730 | the ASCII characters that separate words |
| `Listing.MotdIsDiscarded` | pkg/server/server.go:730-735 | nothing of a MOTD is taken for a module exactly when its last line is blank |
| `Listing.ListingRoundTrip` | pkg/server/server.go:717-798 | reading a printed listing back gives the same sorted list, after any MOTD without a marked line exactly when the MOTD is empty or ends in a blank line |

## Left out

- Sockets, TLS, dialing, deadlines, keepalive, HTTP handlers and logging: only the bytes and outcomes they feed in are modelled; writes to a client succeed.
- The Kubernetes client, watches, events (`FindParentConditions`, `emitRouteEvents`) and generated code.
- Failing status updates: a pass in which an update fails part-way is not modelled.
- `ServedPorts`, metrics, the command line, TOML decoding, Helm charts and the PROXY header: presentation and plumbing.
- Wording of messages is abridged in places and `%q` escapes nothing; every value a message depends on is in it.
- Lower-casing in upstream names covers ASCII, which is all Kubernetes names contain.
- `runtime.AddCleanup` is an explicit, possibly repeated release. The unsynchronised `released` flag is read and set in one step; `RemoveIsIdempotent` covers two releases that pass it.
- Byte counters and queue lengths do not overflow.
- PerIpCapHolds: the cap is positive, since a cap of 0 skips the counter (`pkg/server/server.go:890`); it is fixed during a run and the upstream stays configured, as the property needs; a reload that changes the limit is not modelled there.
- LastTransitionTime of routes with several references to one Gateway: quietness is about content, as the program's own comparison is.
- Uniqueness of a module across Gateways is not promised by the program.
