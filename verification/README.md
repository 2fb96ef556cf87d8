# A verified model of Free Proxy

Free Proxy turns public VPNGate nodes into local proxy exits. It keeps a pool of SOCKS5 ports with one OpenVPN
tunnel each, one active exit with a policy route of its own, and a table of nodes whose status follows probes,
dials, listings and cooldowns. This project models that behaviour in Dafny 4.11 and proves what holds over every
run of it. `dafny verify dfyconfig.toml` checks all of it.

## What is modelled

| file | part of the program |
|---|---|
| `Pool.dfy`, `Rotation.dfy` | the multi-port pool: repair, grow and shrink passes over the slots, probe verdicts, the rotating port's session bindings |
| `PolicyRouter.dfy`, `RouterText.dfy` | the policy router over a kernel of rules, routes and `rp_filter` values, down to the text `ip` prints |
| `Store.dfy`, `Liveness.dfy`, `Lifecycle.dfy`, `StatusLog.dfy`, `Discovery.dfy` | the node table: every statement as an update of rows, whole histories of probes, dials, listings and sweeps, the status as a reading of a node's log, what a discovery stores |
| `Coordinator.dfy`, `TunAllocator.dfy`, `Naming.dfy` | mutual exclusion of operations, exclusive probe devices, names in host-global namespaces |
| `Sorting.dfy`, `Ranking.dfy`, `Selection.dfy`, `Maintenance.dfy` | filtering, ranking, choosing the exit, the rotating probe slice |
| `Gateway.dfy` | activation, teardown and switching of the active exit |
| `Socks5.dfy`, `Socks5Client.dfy` | the SOCKS5 server and the health check's client, as functions of the bytes received, and their conversation |
| `VpnGateParser.dfy`, `Sanitizer.dfy` | the VPNGate row loop, the endpoint in a configuration, the pool's clean-up of it |
| `Text.dfy`, `Lists.dfy`, `Arithmetic.dfy` | strings, sequences and division facts the rest shares |

Classes carry the state the program keeps in objects; each method is proved against a function or a predicate on
the old and the new state, and the theorems over runs are lemmas about those. What the operating system, the network
or the database decides (whether a tunnel comes up, what a dial reports, whether a command fails, what a read
returns) is arbitrary in the model. Where a theorem speaks of such answers, as for the activation of an exit, they
are a function of time given from outside; where a contract speaks of failures, as for the policy router, it means
the failures of that call.

Two assumptions about time: instants are integers, and a node's probes are strictly later one after another. The
stored text form (internal/store/repo.go:48) compares in time order only across different whole seconds.

Each pass over the pool's slots (repair, balance, one probe tick) is one atomic step, in the order `reconcile` runs
them. The program guards repair and balance with different mutexes (internal/pool/pool.go:87-88) and gives no
alignment guarantee when they interleave.

## Where the code and its documentation differ

The model follows the code. Each point is a lemma that says exactly when the documented behaviour holds.

- A failed `ip route show` reads as an empty table, so the cleanup flushes it: foreign routes are untouched exactly
  when the listing worked, or the flush failed as well, or the table held none (`PolicyRouting.ForeignRoutesSurvive`).
- After a setup and a cleanup that can write, every `rp_filter` value is what it was before exactly when the setup
  failed, or its last attempt read the old value, or could not write 2, or the old value was 2
  (`PolicyRouting.RpFilterRestored`).
- A slot that forwards nothing does not always drop out of the healthy set (internal/pool/pool.go:856-859): the
  verdict needs a success read before it in index order, so the lowest slot never does
  (`Pool.FirstSlotNeverDowngraded`), and for the others the order decides unless no slot forwarded or every good one
  did (`Pool.VerdictsDependOnOrder`).
- The session selector ignores the forwarding verdict: a pick is sure to forward exactly when every healthy slot does
  (`Rotation.PickForwardsExactlyWhenAllDo`).
- The port block is not always gap-free and ports never shift up (as README.md:39 of the repository says). After a
  reconcile a position is a gap exactly when the repair had to fill it (without candidates: when it was a gap already)
  and no start of that call on its port succeeded (`Pool.Manager.Reconcile`; `Pool.GapBelowLiveSlot` is a run that
  ends with one).
- An answered dial promotes an unavailable node exactly when its last probe succeeded, so a failed activation is
  undone by the next sweep (`Lifecycle.AnsweredDialPromotes`, `Lifecycle.FailedActivationIsUndone`).
- A discovery does not store every node the provider listed: it drops the blacklisted ones, and its batch stops at
  the first row that is rejected or that the database fails on, which loses that row and all behind it. So a node can
  be deleted as long unlisted right after it was listed (`Lifecycle.ListedYetDeleted`, `Lifecycle.StoppedYetDeleted`):
  exactly when the deletion rule holds and a discovery within its window (24 hours, 72 if not TCP) lost a listing of it
  in one of these ways or could not read the blacklist (`Lifecycle.DeletedThoughListed`).
- Aliases outlive the row they lead to. A node that was relisted under another id, purged and listed again under
  that id is lost: no probe of it is recorded and no call finds it (`Lifecycle.ReturningNodeIsLost`; exactly when a
  probe is recorded on its own row: `Lifecycle.ProbeReachesRow`). Such rows shrink the rotation of the probe slice
  (internal/services/maintenance.go:150-154): with L of them, k cycles suffice for the N - L others when
  N - L <= (200 - L) * k (`Maintenance.EveryNodeIsProbed`); without a fast pass, and the lost rows never recorded, fewer
  do not (`Maintenance.BoundIsExact`); and 200 of them starve it (`Maintenance.LostRowsStarveTheRest`).
- A sweep protects the active node only under its canonical id (`Lifecycle.ActiveRowProtected`).
- A switch charges a node for a failed `Connect`, also when this machine could not write a file or start openvpn.
  Only nodes that refused the handshake are charged, over all runs, exactly when this machine can start the tunnel
  whenever an activation comes to that (`Gateways.OnlyRefusalsAreCharged`, for one switch
  `Gateways.ChargedExactlyForHandshakes`); otherwise one switch charges every node it tries
  (`Gateways.StartFaultsAreCharged`).
- A switch may try the very node that is active, which takes its tunnel down first. It never does exactly when, in
  fixed mode, the fixed id is unset or leads to another node, and otherwise no other stored row's id leads to the
  active one; where rows are found by their own ids that means it is active under its own
  (`Gateways.ActiveNodeNeverTried`, `Gateways.OwnIdIsEnough`, `Gateways.ActiveNodeMayBeTried`). In fixed mode a rotation
  of the node that is up under its own id dials it anew, and loses the exit if it then refuses
  (`Gateways.FixedNodeIsDialledAgain`).
- A late exit callback strips the routing of a tunnel that is up by then: with commands that work, the exit is up
  without its rule and route after the callback exactly when one was up before
  (`Gateways.GatewayService.HandleUnexpectedExit`).
- A switch looks at the first 1000 ready nodes, the selector at 5000; a switch that finds no candidate takes a
  running exit down (`Gateways.AutoSwitchService.Switch`).
- An activation that is rejected leaves the tunnel alone but has already switched connections on; one that fails
  before the routing step leaves the previous exit's rule and route in place (`Gateways.GatewayService.Activate`).
- A capturing SOCKS5 negotiation swallows a wrong version byte and goes on with an empty key (`Socks5.OpenOtherwise`).
- Start-up does not compare the probe range with the pool's devices (`Naming.ProbeAndPoolDevicesDisjoint`).

## Model

| member | source | states |
|---|---|---|
| `Pool.Manager.Reconcile` | internal/pool/pool.go:201-308 | repair then balance, each over its own list of candidates or none, any start outcomes: slots stay on port start+i, device base+i and table 9528+i; healthy slots keep place and node unless the pool shrank below them; live slots equal min(candidates, maxPorts) or are fewer and a port at or above the end refused every candidate; while the repair left fewer than that, its first gap is filled or every candidate was tried and refused there; a position is a gap if and only if this call had to fill it and none of its starts on that port succeeded, and then every candidate of the repair was refused there; only candidates are started; the last position is filled |
| `Pool.GapBelowLiveSlot` | internal/pool/pool.go:201-308 | a run that ends with a gap below a healthy slot |
| `Pool.Manager.RepairDead` | internal/pool/pool.go:212-248 | slots healthy at entry are unchanged; every other one is healthy with a candidate's node, or a hole whose port every candidate refused; a start succeeded on exactly the ports it rebuilt; a failed fetch changes nothing |
| `Pool.Manager.RepairSlot` | internal/pool/pool.go:228-239 | replaces one slot and its device only |
| `Pool.Manager.Balance` | internal/pool/pool.go:254-308 | present slots stay put and up; new ones are healthy; a shrink removes a suffix and ends on the target; growth fills the first hole or finds every candidate refused there; a hole is filled exactly when a start on its port succeeded; growth stops only at the target or at a port nothing starts on |
| `Pool.Manager.GrowStep` | internal/pool/pool.go:281-296 | one turn adds exactly one live slot, at the first hole unless every candidate was tried and refused on its port; a position is appended only after that; or the next port refused every candidate too and nothing changed |
| `Pool.Manager.Shrink` | internal/pool/pool.go:298-306 | empties positions from the tail until the target is met, and touches nothing before the cut |
| `Pool.Manager.TrimTrailingNils` | internal/pool/pool.go:1064-1072 | keeps a prefix that ends in a slot, drops only holes, keeps the live count |
| `Pool.Manager.TryFillPort` | internal/pool/pool.go:389-405 | a candidate in use is shared only after every unused one refused; None means every candidate refused this port |
| `Pool.Manager.StartNode` | internal/pool/pool.go:410-475 | identity arithmetic of a started slot: offset, device, table; logs the attempt with the outcome decided outside |
| `Pool.Manager.TeardownSlotAt` | internal/pool/pool.go:1019-1038 | stops one slot, its device disappears, the slice keeps the stopped slot |
| `Pool.Manager.TunnelExits` | internal/pool/pool.go:455-480 | a tunnel that dies on its own leaves its slot down and the others alone |
| `Pool.Manager.IdentitiesDistinct` | internal/pool/pool.go:410-435 | no two slots share a port, a device or a routing table |
| `Pool.Manager.SlotDevice` | internal/pool/pool.go:415 | a slot's device is prefix followed by base+i |
| `Pool.Manager.ProbeAll` | internal/pool/pool.go:900-991 | probes exactly the slots that are up and gives each the verdict of the tick function, in index order |
| `Pool.TicksNeverEmptyPool` | internal/pool/pool.go:958-991 | no sequence of ticks turns a non-empty set of forwarding slots empty |
| `Pool.OutageChangesNothing` | internal/pool/pool.go:972-976 | ticks without a success change no verdict |
| `Pool.VerdictsDependOnOrder` | internal/pool/pool.go:958-986 | reading a tick's results in another order never changes a flag if and only if no slot forwarded or every good slot did |
| `Pool.IndexOrderIsTick` | internal/pool/pool.go:958-986 | the tick is the reading in index order |
| `Pool.FirstSlotNeverDowngraded` | internal/pool/pool.go:972-976 | the lowest probed slot keeps its verdict through any ticks |
| `Pool.Manager.PickConnector` | internal/pool/pool.go:678-720 | computes the pick function over the healthy slots and returns that slot's device |
| `Pool.Manager.AssignSlot` | internal/pool/pool.go:690-714 | binds the key to the slot the pick function names |
| `Pool.Manager.HealthySlotIndices` | internal/pool/pool.go:725-735 | exactly the running slots whose device exists, ascending |
| `Pool.Manager.RecycleSession` | internal/pool/pool.go:807-817 | forgets one session, or all for the empty key |
| `Rotation.PickIsFresh` | internal/pool/pool.go:678-720 | a pick is healthy; it keeps bindings distinct exactly outside a fallback, and a fallback shares another session's slot |
| `Rotation.PickTakesTurns` | internal/pool/pool.go:678-720 | a pick that does not stick falls on the healthy slot, among those no session holds if there are any and a key is given, whose rank is the counter modulo their number, and the counter moves on by one |
| `Rotation.BindingsStayDistinct` | internal/pool/pool.go:678-720 | over every run of picks, recycles and health changes, the bindings that were not last assigned by a fallback are pairwise distinct; without a fallback that is all of them |
| `Rotation.FallbackNeedsFullPool` | internal/pool/pool.go:692-712 | a fallback happens only when at least as many other sessions are bound as slots are healthy |
| `Rotation.FirstSessionsGetDistinctSlots` | internal/pool/pool.go:690-714 | pigeonhole: on n healthy slots, any run with at most n session keys never falls back, so all bound sessions hold different slots |
| `Rotation.SessionKeepsSlot` | internal/pool/pool.go:686-689 | a session keeps its slot while the slot stays healthy and it is not recycled |
| `Rotation.PickForwardsExactlyWhenAllDo` | internal/pool/pool.go:725-735 | a pick is sure to forward if and only if every healthy slot forwards |
| `Rotation.FullTurnVisitsEachOnce` | internal/pool/pool.go:716-719 | any n consecutive keyless picks visit each of n slots once |
| `Rotation.RoundRobinIsFair` | internal/pool/pool.go:716-719 | over k keyless picks from any counter, each slot is used k/n times or once more |
| `RouterText.ParsePolicyRules` | internal/netx/routing.go:313-341 | the loop reads every line as the scanning function does |
| `RouterText.ParseTableRoutes` | internal/netx/routing.go:350-368 | likewise for routes |
| `RouterText.RuleReadsBack` | internal/netx/routing.go:313-341 | a printed rule, with anything between device and lookup and after the table, reads back to itself if and only if its device is not called oif |
| `RouterText.ShownRulesReadBack` | internal/netx/routing.go:313-341 | parsing a whole printed listing, final newline included, gives the rules, in order |
| `RouterText.ShownRoutesReadBack` | internal/netx/routing.go:350-368 | parsing a printed table, final newline included, gives its routes, in order |
| `PolicyRouting.ListingCoversRules` | internal/netx/routing.go:211-224 | every owned rule is listed under its device at least as often as it is installed |
| `PolicyRouting.ListingCoversRoutes` | internal/netx/routing.go:226-240 | the same for owned routes of the table |
| `PolicyRouting.ForeignRoutesSurvive` | internal/netx/routing.go:177-189 | a cleanup leaves foreign routes alone if and only if the listing worked, or the flush failed too, or the table held none |
| `PolicyRouting.OwnsMeans` | internal/netx/routing.go:84-93 | owned is exactly the configured interface and the configured prefix followed by one or more decimal digits |
| `PolicyRouting.CleanupByDevice` | internal/netx/routing.go:169-199 | in terms of device names: rules of every other device or table keep order and contents through any cleanup, routes do when the listing was read or the table held none; after faithful commands nothing but those is left |
| `PolicyRouting.OurDevicesAreClear` | internal/netx/routing.go:169-199 | after a faithful cleanup the table holds no rule and no route of the interface or of any device the prefix and an index name |
| `PolicyRouting.SetupByDevice` | internal/netx/routing.go:95-165 | the same for a setup; a success has a rule and a default route of the device in the table, and of all owned devices only that one is left there if the commands were faithful |
| `PolicyRouting.ForeignDevicesSurvive` | internal/netx/routing.go:84-198 | over any sequence of setups and cleanups with faithful listings, rules and routes of every other device or table keep order and contents |
| `PolicyRouting.RpFilterRestored` | internal/netx/routing.go:152-197 | after any setup and then a cleanup that can write, the values are those before the setup if and only if the setup failed, or its last attempt read the old value, or could not write, or that value was 2 |
| `PolicyRouting.PolicyRouter.RemoveOurRules` | internal/netx/routing.go:175-177 | foreign rules are untouched; if no command of this call failed that had something to show or remove, no owned rule is left |
| `PolicyRouting.PolicyRouter.RemoveOurRoutes` | internal/netx/routing.go:179-192 | other tables are untouched; with the listing read, foreign routes are; when everything went through, exactly the owned routes are gone |
| `PolicyRouting.PolicyRouter.RestoreRpFilter` | internal/netx/routing.go:194-197 | everything remembered is forgotten, and if this call could write, every value is back |
| `PolicyRouting.PolicyRouter.Cleanup` | internal/netx/routing.go:169-199 | nothing owned is left, everything else as before, the original values back, each under the exact failures of this call that break it |
| `PolicyRouting.PolicyRouter.SetupOnce` | internal/netx/routing.go:119-165 | one attempt: success always has the rule and the route installed, failure leaves at most owned leftovers for the caller's cleanup |
| `PolicyRouting.PolicyRouter.Setup` | internal/netx/routing.go:95-117 | any number of retries: success always has the rule and the route installed, and they are the only owned ones if this call's commands were faithful; a failure then leaves none, and comes only after a failing command in each of the attempts; originals are remembered or back |
| `PolicyRouting.AnyCallSequence` | internal/netx/routing.go:84-198 | over any sequence of setups and cleanups with faithful listings and working sysctl: foreign entries and other tables keep their contents; what is owned is exactly the last setup's rule and route, or nothing after a cleanup or a failure; after a cleanup every value equals the one before the run |
| `Store.NodeRepository.UpsertDiscovered` | internal/store/repo_ext.go:25-46 | keeps stored ids and identities unique, adds aliases, stops at the first row that is rejected or that the database fails on |
| `Store.UpsertKeepsUnique` | internal/store/repo_ext.go:32-43 | an upsert never gives two rows one identity |
| `Store.UpsertStores` | internal/store/repo_ext.go:25-46 | an upsert writes the row of the identity, or a fresh discovered one, with the listed endpoint, time and presence; status, probe time and counters of a stored row stay; a new id leads to it from then on; no other row changes |
| `Store.NodeRepository.Blacklist` | internal/store/repo_ext.go:311-324 | blacklist row and cooldown status under the canonical id, nothing else |
| `Store.NodeRepository.ActiveBlacklistIDs` | internal/store/repo_ext.go:86-115 | restores expired rows to what the last probe says, and returns exactly the unexpired ids |
| `Store.NodeRepository.DeleteDeadNodes` | internal/store/repo_ext.go:290-308 | deletes exactly the dead rows and counts them |
| `Liveness.ExecInChunks` | internal/store/repo_ext.go:250-269 | statements of at most 400 ids, one batch after another |
| `Liveness.BatchesEqualOneStatement` | internal/store/repo_ext.go:250-269 | batching equals one statement always for assignments, and for the counter if and only if no stored id falls into two batches |
| `Liveness.RecordLivenessIsOneUpdate` | internal/store/repo_ext.go:205-246 | the four batched statements equal one whole-set update if and only if each failed node is counted once, hence for lists without repetition of any length |
| `Liveness.DialAll` | internal/services/liveness.go:126-151 | partitions the targets by answer, each once |
| `Liveness.Sweep` | internal/services/liveness.go:85-122 | dials exactly the TCP rows with an endpoint of the table as it was listed, and records and deletes as one update of the table as it has become; a cancelled sweep changes nothing |
| `Lifecycle.SweepRowByRow` | internal/services/liveness.go:103-114 | the sweep's five statements act on each row on its own |
| `Lifecycle.StepKeepsInv` | internal/store/repo_ext.go:25-358 | every event of the life cycle keeps each row faithful to the node's history |
| `Lifecycle.StatusIsEarned` | internal/store/repo_ext.go:205-358 | in every reachable state a ready node's latest probe succeeded, a cooldown node has a blacklist row, and both counters are the trailing runs of failures |
| `StatusLog.TableIsTold` | internal/store/repo_ext.go:86-358 | over every run, the status of every stored row is the reading of its log of probe starts, results, refused activations, dials, cooldowns and expiries; so are its latency, probe, success and answer times, cooldown end and totals |
| `StatusLog.ProbeDecides` | internal/store/repo_ext.go:342-358 | in every reachable state a recorded probe leaves the row it reaches ready if and only if it succeeded, and unavailable otherwise, with its latency and time |
| `StatusLog.CooldownEnds` | internal/store/repo_ext.go:86-152 | in every reachable state an expiry ends a cooldown that is due: discovered if and only if the node was never probed, ready if and only if its last probe succeeded, unavailable otherwise |
| `StatusLog.OthersDecide` | internal/store/repo_ext.go:205-339 | in every reachable state, what every other event does to a status: probing, unavailable, cooldown on the row the id reaches, a silent dial demotes a ready row that is not in use, and everything else leaves it |
| `Lifecycle.SweepDeletesExactly` | internal/store/repo_ext.go:290-308 | a sweep deletes a TCP node if and only if its last three dials failed and its last stored listing is over 24 hours old, any other node if and only if five handshakes in a row failed and 72 hours passed; active, favourite, blacklisted and fixed ids stay |
| `Lifecycle.PurgeDeletesExactly` | internal/store/repo_ext.go:156-180 | over every run: a purge deletes a row if and only if it is absent, its last stored listing is older than the cutoff and it is neither favourite, blacklisted nor fixed |
| `Discovery.ListingIsStored` | internal/services/discovery.go:51-80 | a discovery whose batch goes in stores every listing whose id is not, or no longer, blacklisted, and its row is present |
| `Discovery.OnlyListingsAreAdded` | internal/services/discovery.go:51-80 | and adds no row but for such a listing, under its own id |
| `Discovery.UnlistedIsAbsent` | internal/store/repo_ext.go:57-84 | a stored row that is not listed becomes absent if it is of that provider, and keeps its last listing |
| `Lifecycle.DeletedThoughListed` | internal/services/discovery.go:51-65 | over every run: a sweep deletes a node that was listed within its window (24 hours, 72 if not TCP) if and only if the deletion rule condemns it and a discovery of those hours, since which it has been stored, lost a listing of it: blacklisted, at or behind the row the batch stopped at, or with the blacklist unreadable; and then no listing of the window was kept |
| `Lifecycle.StoppedYetDeleted` | internal/store/repo_ext.go:27-44 | runs, for any TCP node, that delete it two seconds after the provider listed it in a batch stopped by an id clash ahead of it or by a database fault |
| `Lifecycle.ListingsAreUpserts` | internal/store/repo_ext.go:27-46 | what a batch of listings does to the tables, and where it stops, is what the repository does |
| `Lifecycle.ListedYetDeleted` | internal/services/discovery.go:54-63 | a run, for any TCP node, that deletes it two seconds after the provider listed it |
| `Lifecycle.AnsweredDialPromotes` | internal/store/repo_ext.go:218-229 | an answered dial brings an unavailable node back if and only if its last probe succeeded |
| `Lifecycle.FailedActivationIsUndone` | internal/store/repo_ext.go:333-339 | every ready TCP node whose activation fails is ready after the next sweep that reaches it, also when the failure was recorded on it |
| `Lifecycle.ActiveRowProtected` | internal/store/repo_ext.go:296 | the active node's row survives every rule if and only if it is stored under that id or otherwise protected |
| `Lifecycle.ProbeReachesRow` | internal/store/repo_ext.go:342-358 | every probe of a stored row is recorded on that row if and only if its id is not an alias of another |
| `Lifecycle.ReturningNodeIsLost` | internal/store/repo_ext.go:25-46 | a run, for any node and any two ids, after which the node's row is stored under an alias of a row that is gone, so that no probe of it is ever recorded |
| `Coordination.Exclusion` | internal/services/operations.go:47-81 | any interleaving of any callers and releases: one holder at most, current is empty or names the running holder, waiting counts exactly the callers between increment and decrement, and the holder can always go on, so the receive never blocks |
| `Coordination.OthersCannotDisturb` | internal/services/operations.go:47-81 | no other call's step, a stale or repeated release and a nested call included, takes the running operation's name or semaphore; a conflict read meanwhile shows that name |
| `Coordination.NestedAndRepeatedAreFree` | internal/services/operations.go:48-50 | a call with a token, stale ones included, and any release of a call that is not the running one leave semaphore, name, counter and holder alone |
| `Coordination.ReleasedOnce` | internal/services/operations.go:71-79 | over every run a closure receives from the semaphore once if its body is done and otherwise never, however often it is called |
| `Coordination.OnceIsNeeded` | internal/services/operations.go:71-73 | without the once a second release breaks the invariant in every state with another operation running; with it, it never does |
| `Coordination.StaysCurrent` | internal/services/operations.go:47-81 | a running operation stays current through any number of other calls' steps |
| `Coordination.InvStep` | internal/services/operations.go:47-91 | every atomic step keeps the invariant |
| `Coordination.StepsMean` | internal/services/operations.go:47-91 | what every step does in every reachable state: a call that does not wait gets in exactly when nobody is in and is told of a conflict otherwise, one that waits can get in exactly while nobody is, a call with a token goes on, a publication makes the caller current, the last receive leaves nobody in |
| `Coordination.Coordinator.BeginCall` | internal/services/operations.go:47-65 | passes a call with a token; otherwise counts a waiter, takes the free semaphore, or reports a conflict exactly when someone holds it |
| `Coordination.Coordinator.ConflictError` | internal/services/operations.go:61-64 | the error shows what is current when it is read: nothing, or the running operation |
| `Coordination.Coordinator.SetCurrent` | internal/services/operations.go:66-81 | publishes the name and hands out the token and the closure |
| `Coordination.Coordinator.CallRelease` | internal/services/operations.go:71-76 | any call of a closure: only the first one of the running operation gets in and empties the name |
| `Coordination.Coordinator.SemaphoreReceive` | internal/services/operations.go:77 | second half of the release: frees the semaphore, and the once is done |
| `TunAllocators.NewTunAllocator` | internal/netx/tun.go:30-44 | fails exactly for a bad prefix or an empty range |
| `TunAllocators.TunAllocator.Allocate` | internal/netx/tun.go:58-102 | returns the lowest index free in the bookkeeping and on the host, and fails only when there is none, with the counts of its message |
| `TunAllocators.TunAllocator.RunRelease` | internal/netx/tun.go:84-94 | the first call frees the index, later calls change nothing |
| `TunAllocators.TunAllocator.LiveDevicesDistinct` | internal/netx/tun.go:58-102 | two held allocations never name one device |
| `TunAllocators.TunAllocator.ActiveDeviceNeverHeld` | internal/config/config.go:238-249 | with a validated configuration no allocation is ever the active tunnel's device |
| `Naming.FinalizeNaming` | internal/config/config.go:213-251 | defaults, validation with lengths in bytes, and the move of the range, as the specification function |
| `Naming.AcceptedExactly` | internal/config/config.go:213-251 | start-up goes on exactly when the names, after defaults, are non-empty, plain and at most 12 and 15 bytes long, the table is positive and not 253 to 255, and the range is ordered and not spent on the active device; the result is that configuration, the range starting one later if it began with the active device |
| `Naming.DefaultsArePrivate` | internal/naming/naming.go:31-80 | an empty configuration becomes fpx, fpx0, table 9527 and probes from index 1 |
| `Naming.ProbeRangeAvoidsActiveDevice` | internal/config/config.go:238-249 | after start-up no index of the range prints the active device, and only that one index was given up |
| `Naming.ProbeIndexOfDeviceName` | internal/config/config.go:254-263 | printing then parsing an accepted device name gives its index |
| `Naming.ProbeIndexMeans` | internal/config/config.go:254-263 | an index is read exactly off names that are the prefix and its decimal digits |
| `Naming.DeviceNameInPool` | internal/naming/naming.go:82-111 | every name of a non-empty prefix is recognised as the prefix's |
| `Naming.DevicePrefixMeans` | internal/naming/naming.go:97-111 | recognised are exactly the names that are a non-empty prefix followed by one or more decimal digits |
| `Naming.DeviceNameInjective` | internal/naming/naming.go:82 | different indices print different names |
| `Naming.ProbeAndPoolDevicesDisjoint` | internal/config/config.go:236-249 | probe and pool devices share no name if and only if their index ranges are disjoint |
| `Sorting.SliceStable` | internal/services/pool.go:128-130 | the in-place sort computes the sorting function |
| `Sorting.SortedIsStable` | internal/services/pool.go:128-130 | for a strict weak order the result is ordered and keeps every class of equals in its order |
| `Sorting.SortedKeepsElements` | internal/services/pool.go:128-130 | the result is a permutation |
| `Sorting.StableSortUnique` | internal/services/pool.go:177-182 | any two stable sorts of a list agree, whatever their algorithm |
| `Ranking.ApplyFilters` | internal/services/pool.go:80-120 | keeps exactly the nodes mode and address type admit, in order |
| `Ranking.ModeOrderIsWeakOrder` | internal/services/pool.go:216-251 | lessFor is a strict weak order in every mode |
| `Ranking.LessIsLexicographic` | internal/services/pool.go:216-251 | it compares keys of numbers lexicographically: residential first, then latency up, speed down and score down in the order of the mode |
| `Ranking.SortSmartCandidates` | internal/services/pool.go:137-183 | buffers, ranges, score table and sort compute the smart ranking, repeated ids included |
| `Ranking.MinMax` | internal/services/pool.go:149-160 | the range loop finds the least and the greatest value |
| `Ranking.ScoreInUnitInterval` | internal/services/pool.go:164-176 | every score lies in [0,1] |
| `Ranking.ScoreIs` | internal/services/pool.go:137-183 | the score is 0.4, 0.4 and 0.2 of how far latency, speed and sessions are from the worst to the best of the pool, and half where all are alike |
| `Ranking.SmartRankingMeans` | internal/services/pool.go:177-182 | no lower score stands ahead of a higher one, and of equal scores the smaller id comes first |
| `Ranking.DominatorRanksAhead` | internal/services/pool.go:170-182 | a node is ranked ahead of every node it dominates in latency, speed and sessions |
| `Ranking.SmartRankingIgnoresInputOrder` | internal/services/pool.go:137-183 | the ranking does not depend on the order of its input |
| `Selection.ListingIsFaithful` | internal/store/repo.go:216-235 | a listing leaves an admitted row out only when it is full of rows before it |
| `Selection.ListedBeforeMeans` | internal/store/repo.go:216-235 | the listing goes by measured latency, then score downwards, then id |
| `Selection.SortCandidates` | internal/services/pool.go:123-131 | sorts in place by the mode's preference |
| `Selection.HeadIsBest` | internal/services/pool.go:51-56 | the head of the ranking is a minimum, and preferred to everything listed before it |
| `Selection.SelectBest` | internal/services/pool.go:29-57 | none when disabled; otherwise the best of the ready, admitted, not excluded rows of the listing, none only if there is none |
| `Selection.SelectExcluding` | internal/services/autoswitch.go:95-118 | the same over the first thousand ready rows |
| `Selection.ValidateAllowed` | internal/services/pool.go:60-72 | allowed exactly when connections are on and the filters admit the node |
| `Selection.SelectionIsSound` | internal/services/pool.go:29-57 | a selected node is a ready row the settings admit; within the limit one is found whenever there is one and no other is preferred |
| `Selection.BestHasLeastKey` | internal/services/pool.go:51-56 | outside the smart mode no candidate has a smaller key than the choice |
| `Selection.BestMeans` | internal/services/pool.go:216-251 | by speed the fastest, residential first a residential one if there is any, otherwise the least measured latency |
| `Selection.SmartBestIsUndominated` | internal/services/pool.go:137-183 | in the smart mode no candidate is better in latency, speed and sessions at once |
| `Maintenance.CandidateNodes` | internal/services/maintenance.go:184-201 | the reachable rows worth a handshake, in listing order |
| `Maintenance.CandidatesMean` | internal/services/maintenance.go:184-201 | worth a handshake are exactly the reachable rows that are discovered or ready, or unavailable if those count, within the fetch limit |
| `Maintenance.FastOrderIsWeakOrder` | internal/services/maintenance.go:224-247 | probeLess is a strict weak order |
| `Maintenance.ProbeLessIsLexicographic` | internal/services/maintenance.go:224-247 | it compares keys of numbers lexicographically: in the speed mode the advertised speed first, then the provider's ping with none as very slow, the score, the speed, and few sessions |
| `Maintenance.FastPass` | internal/services/maintenance.go:87-106 | the first ids of the ranked, filtered candidates |
| `Maintenance.FastPassMeans` | internal/services/maintenance.go:87-106 | it fills its limit before it leaves a node out, and hands out none in its place that the key ranks behind it, or in the smart mode one of a lower score |
| `Maintenance.FastCandidatesMean` | internal/services/maintenance.go:87-106 | ranked are exactly the reachable rows, discovered or ready, that mode and address type admit, an unknown type included, within the fetch limit |
| `Maintenance.RotationStep` | internal/services/maintenance.go:119-133 | the slice of the candidates that were neither just probed nor active |
| `Maintenance.SliceForCycle` | internal/services/maintenance.go:159-178 | sorts in place and takes the first 200 |
| `Maintenance.SliceIsLeastRecentlyProbed` | internal/services/maintenance.go:155-178 | each id once, at most 200; a node is left out only for 200 others none of which was probed after it |
| `Maintenance.SliceIsOldest` | internal/services/maintenance.go:159-178 | every node in the slice was never probed, or no later than any node left out |
| `Maintenance.EveryNodeIsProbed` | internal/services/maintenance.go:119-178 | over a fixed pool of N rows, listed in any order, L < 200 of them stored under an alias: any k cycles with N - L <= (200 - L) * k probe every other row on record; without such rows ceil(N/200) suffice |
| `Maintenance.BoundIsExact` | internal/services/maintenance.go:155-178 | without a fast pass, and with lost rows never recorded that lead outside the pool: k cycles probe every other row if and only if N - L <= (200 - L) * k |
| `Maintenance.LostRowsStarveTheRest` | internal/services/maintenance.go:155-178 | with 200 never-probed rows that no stored id leads to, no slice ever again holds a row that was probed once |
| `Gateways.Tunnel.Connect` | internal/tunnel/openvpn.go:81-112 | replaces the tunnel; it succeeds exactly when the files can be written, the program starts and the node completes the handshake, and holds nothing otherwise |
| `Gateways.Tunnel.ClearExitedProcess` | internal/tunnel/openvpn.go:140-147 | drops only an exited process |
| `Gateways.GatewayService.Activate` | internal/services/gateway.go:87-143 | the result as a function of what database, machine and node answer, up to routing; anything but a rejection means that the stored row of the resolved id exists and mode and address type admit it, and with a readable database a rejection means the opposite; rejected with the exit untouched, or failed with no tunnel and routing untouched or cleaned up, routing failing only for a failing command in every attempt, or that node running with its rule and route installed, whatever else failed; the node is marked unavailable exactly when Connect failed |
| `Gateways.GatewayService.DisconnectOnly` | internal/services/gateway.go:170-182 | no tunnel, routing as the cleanup of this call leaves it, zeroed readings |
| `Gateways.GatewayService.Disconnect` | internal/services/gateway.go:157-163 | also switches connections off |
| `Gateways.GatewayService.HandleUnexpectedExit` | internal/services/gateway.go:222-239 | cleans up routing whenever a tunnel is recorded, drops it only if its process is gone, and says when the callback is due; with commands that work the exit is up without its routing afterwards exactly when one was up before |
| `Gateways.AutoSwitchService.HandleUnexpectedExit` | internal/services/autoswitch.go:83-93 | the callback: nothing when disabled, exactly one attempt on the fixed node in fixed mode, otherwise a switch |
| `Gateways.AutoSwitchService.ProcessExited` | internal/services/gateway.go:222-239 | handler and callback together: in fixed mode one attempt on the fixed node, whatever is up; otherwise a switch whose attempts exclude the new tunnel's node if one is up, and nothing if the exit was down, so the node that died may be tried again |
| `Gateways.AutoSwitchService.Switch` | internal/services/autoswitch.go:28-80 | at most three sound attempts, or in fixed mode one on the fixed node, each ending as the environment answers, cooldowns exactly for chosen nodes whose Connect failed, the routed exit its result names, no exit when nothing is left to try or the fixed node failed; with a readable database it has nothing to do exactly when connections are off or no fixed node is set, and otherwise stops only at an exit, after three failures or with no candidate left |
| `Gateways.AttemptsArePermitted` | internal/services/autoswitch.go:36-77 | whatever a switch tries and is not rejected, chosen or fixed, has a stored row that mode and address type admit |
| `Gateways.AttemptsAreDistinct` | internal/services/autoswitch.go:44-61 | no row is tried twice, nor the one whose own id is active; no node twice as long as the ids tried are nodes' own |
| `Gateways.ActiveNodeNeverTried` | internal/services/autoswitch.go:36-47 | over all runs, fixed mode included: the node that was active is never tried if and only if the fixed id is unset or leads to another node, or, where the switch chooses, no other stored row's id leads to it |
| `Gateways.OwnIdIsEnough` | internal/services/autoswitch.go:44-47 | where rows are found by their own ids, the latter holds if and only if the node was active under its own id |
| `Gateways.FixedNodeIsDialledAgain` | internal/services/autoswitch.go:36-42 | the failing run: a switch in fixed mode dials the node that is up under its own id, and its attempt fails if the node then refuses the handshake |
| `Gateways.ActiveNodeMayBeTried` | internal/services/autoswitch.go:95-118 | for the rows at hand: it can be the first a switch chooses if and only if another id of it is the id of one of the first thousand ready rows |
| `Gateways.ChargedExactlyForHandshakes` | internal/services/autoswitch.go:62-77 | one switch, fixed mode included, charges only nodes that were dialled and refused the handshake if and only if the machine could start the tunnel at every Connect it charged |
| `Gateways.OnlyRefusalsAreCharged` | internal/tunnel/openvpn.go:89-108 | over all runs: only refusals are charged if and only if the machine can start the tunnel whenever an activation comes to that |
| `Gateways.StartFaultsAreCharged` | internal/tunnel/openvpn.go:89-108 | the failing run: while only starting the tunnel fails, every node tried is charged and none was dialled |
| `Socks5.Gateway.ServeSOCKS5` | internal/proxy/socks5.go:30-127 | what is written, where it ends and what stays unread equal the server function of the input |
| `Socks5.Gateway.SocksAuth` | internal/proxy/socks5.go:132-161 | the user exactly when the message is whole and the credentials pass |
| `Socks5.Gateway.SocksAuthCapture` | internal/proxy/socks5.go:166-189 | the user of a whole message, otherwise the empty key and where the reader stopped |
| `Socks5.Gateway.ReadSocksAddr` | internal/proxy/socks5.go:197-224 | a destination if and only if its address of that type comes next, with the reader behind it; none for a short read or another type |
| `Socks5.RequestRead` | internal/proxy/socks5.go:88-117 | a request for any IPv4 or IPv6 address or any name of at most 255 bytes, on any port, goes to the dialler as exactly that |
| `Socks5.DialNeedsCredentials` | internal/proxy/socks5.go:49-61 | for every byte stream: a server that requires authentication dials only after user/pass was offered and credentials that pass were sent, under their user, to the destination of the request behind them |
| `Socks5.OpenOtherwise` | internal/proxy/socks5.go:62-86 | what precedes the request of an open server, wrong version byte included |
| `Socks5.DialledHandshake` | internal/proxy/socks5.go:88-117 | every dial follows a greeting, an accepted negotiation and a well-formed request for exactly what is dialled |
| `Socks5.DialsExactly` | internal/proxy/socks5.go:30-127 | for every byte stream: a user, host, port and rest are dialled if and only if the stream is a greeting, an opening the server accepts for that user and a request for them, address types all included, and a connector exists |
| `Socks5.HandshakeIsServed` | internal/proxy/socks5.go:30-127 | what is written for such a stream: selection, acceptance, and the reply the dial decides |
| `Socks5.MethodsRefused` | internal/proxy/socks5.go:46-86 | without a method it accepts: 05 FF and nothing more |
| `Socks5.CredentialsRefused` | internal/proxy/socks5.go:132-161 | credentials that do not pass: 01 01 and nothing more |
| `Socks5.RequestRefused` | internal/proxy/socks5.go:88-104 | another command than CONNECT is answered 7, an unknown address type 1, and nothing is dialled |
| `Socks5.ServeMore` | internal/proxy/socks5.go:30-127 | more input never takes back what was written, and after the handshake only lengthens the unread rest |
| `Socks5Client.HealthChecker.RequestIP` | internal/netx/proxy_health.go:46-93 | the client's writes and reads equal the client function of what it hears |
| `Socks5Client.ReplyRead` | internal/netx/proxy_health.go:84-93 | a whole reply, with an address of any type, makes it ready if and only if its code is 0, and is read to its last byte |
| `Socks5Client.SelectionRead` | internal/netx/proxy_health.go:46-75 | it gives up on another version, no method or refused credentials, and otherwise goes on to its request |
| `Socks5Client.HandshakeCompletes` | internal/netx/proxy_health.go:46-93 | client against server, all settings: after three exchanges the server dialled exactly the client's host on port 80 and only for an admitted client, neither side holds an unread byte, and the client is ready exactly when the dial succeeded |
| `Socks5Client.EveryDeliverySettles` | internal/netx/proxy_health.go:46-93 | however the bytes are cut up and interleaved: what has arrived is always a beginning of that one conversation, deliveries are bounded by its length, and when nothing is in flight it is complete |
| `Socks5Client.ConverseMore` | internal/netx/proxy_health.go:46-93 | more input never takes back what the client sent, and after the handshake only lengthens the unread rest |
| `Socks5Client.HostArrivesExactlyWhenItFits` | internal/netx/proxy_health.go:77-80 | the host arrives if and only if it has at most 255 bytes |
| `VpnGateParser.ParseRemote` | internal/providers/vpngate/parser.go:57-86 | the line loop computes the fold over the lines |
| `VpnGateParser.LastRemoteWins` | internal/providers/vpngate/parser.go:75-82 | the last remote directive decides host and port |
| `VpnGateParser.NoRemoteNoPort` | internal/providers/vpngate/parser.go:58-60 | without one the host is the fallback and the port 0 |
| `VpnGateParser.RemoteLineReads` | internal/providers/vpngate/parser.go:75-86 | a remote line sets host and port, and the transport if it names one |
| `VpnGateParser.TransportMeans` | internal/providers/vpngate/parser.go:45-55 | TCP when the word occurs in any case, else UDP, else unknown |
| `VpnGateParser.SafeIntReads` | internal/providers/vpngate/parser.go:37-43 | every machine integer reads as itself |
| `VpnGateParser.ParseRows` | internal/providers/vpngate/parser.go:149-207 | the nodes are the first `limit` distinct usable ones; every row is counted once or follows the full limit; one unreadable record fails the response |
| `VpnGateParser.KeptAreFirst` | internal/providers/vpngate/parser.go:179-183 | a kept node is the first of its identity |
| `VpnGateParser.KeptOnce` | internal/providers/vpngate/parser.go:179-183 | each identity is kept once |
| `VpnGateParser.IdentitiesKept` | internal/providers/vpngate/parser.go:179-183 | and none is lost |
| `VpnGateParser.ResultMeans` | internal/providers/vpngate/parser.go:149-207 | every node comes from a usable row that was read, and every such row is represented |
| `Sanitizer.SanitizePoolConfig` | internal/tunnel/pooldev.go:28-64 | the loop computes the filtered and extended text |
| `Sanitizer.SanitizedLines` | internal/tunnel/pooldev.go:28-64 | read back line by line: every line not removed, in order, then the appended ones |
| `Sanitizer.SanitizedExactly` | internal/tunnel/pooldev.go:28-64 | in literal directives: the lines that start none of four, in order, then a cipher list unless a cipher line is there, then the two pull filters |
| `Sanitizer.DirectiveMeans` | internal/tunnel/pooldev.go:32-49 | the directive of a line is its first word after any white space, and a comment has none |
| `Sanitizer.NothingRemovedRemains` | internal/tunnel/pooldev.go:38-53 | no active line starts with a removed directive, and one sets a cipher |
| `Sanitizer.SanitizingKeepsRemote` | internal/tunnel/pooldev.go:28-64 | for every text, host, port and transport are the same before and after |

## Left out

- Ranking.ScoreInUnitInterval: scores are exact reals; floating-point rounding is not modelled, so two scores the program rounds to one are still told apart here.
- Rotation.RoundRobinIsFair: the counter is unbounded; a wrap of the machine integer is not modelled.
- Pool.Manager.Reconcile: no tunnel dies between the repair and the balance; each pass alone is proved from any state.
- PolicyRouting.AnyCallSequence: assumes that the kernel names no device `oif`, that the table is printed by number or by the project's alias, and that installed names hold no white space.
- PolicyRouting.PolicyRouter.Setup: a command that reports failure has changed nothing; one that was cut off after its effect is not modelled.
- RouterText.ShownRoutesReadBack: multi-path routes, which iproute2 prints over several lines, are not among the printed ones.
- Liveness.Sweep: recording and deleting are one step; another write between the two transactions is not modelled.
- Coordination.Exclusion: a second release that meets a running one waits for it; the model lets it return at once.
- Lifecycle.StatusIsEarned: probe times of one node are strictly increasing, as the stored text form orders them only across whole seconds.
- Lifecycle.DeletedThoughListed: a listing is a node of the parsed response, and a whole discovery is one step; when an insert fails, the alias written before it stays.
- Maintenance.EveryNodeIsProbed: the pool of nodes is fixed over the cycles, without the active node, and within the fetch limit, every cycle reaches its rotation step, and every recorded probe is later than all earlier ones.
- Gateways.GatewayService.Activate: the writes whose errors the code ignores succeed; a process that dies, and its exit handler, run between calls and not inside one; an operation conflict ends like an unreadable database.
- Socks5.Gateway.ServeSOCKS5: writes to the client succeed; IP addresses are kept as bytes, their printed form is not modelled.
- Pool slots are values in a sequence the methods reassign: the pointers other goroutines may hold to a slot are not modelled.
- Single SQL statements are functions on rows; SQL text, transactions that abort, time formatting and migrations are not modelled.
- Bytes relayed after the handshake, the HTTP proxy, DNS, socket options and the connection cap.
- Process spawning, signals, OpenVPN log parsing and the pool's per-device egress commands: a start succeeds or not.
- CSV quoting, base64, SHA-256 ids, upper-casing and the country table: cells, decoder, id function and labels are given.
- Lower-casing beyond ASCII: no other character lower-cases into a word the program compares with.
- Store methods outside the life cycle (`RemoveBlacklist`, `PurgeExpiredBlacklist`, `UpdateProbeOutcome`, `DeleteStaleAbsent`) and the pool's unused `build`.
- Clean-up of identifiers of earlier releases, stale processes and leftover devices at start-up.
- Password hashing, admin sessions, settings pages, the web API, the dashboard and the installer.
