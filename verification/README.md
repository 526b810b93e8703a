# GraphKV: a verified model

GraphKV keeps the KV state of agents in request-specific multi-agent graphs. A request is a
directed acyclic graph of roles. The runtime schedules the roles, derives for each one an
identity of its local prompt layout, places it on a serving instance, and asks that
instance's cache manager for the state: from its local tables, from a shared byte-bounded
LRU store, or by computing it again and publishing the result. The store is also served
over TCP in length-prefixed frames, and states travel through a recursive codec.

This project models those layers in Dafny and proves what they promise.

| file | what it holds |
|---|---|
| `Wrappers.dfy`, `Arithmetic.dfy`, `Utf8.dfy` | missing values and exceptions; quotients; the encoding of role names |
| `Ordering.dfy` | `sorted`, code-point order on strings, lexicographic order on lists |
| `Topology.dfy`, `TopologyTheorems.dfy` | graph validation and Kahn's algorithm; exact cycle test, least topological order |
| `Identity.dfy` | graph and layout identities; canonical forms and layout locality |
| `Store.dfy`, `StoreTheorems.dfy` | the versioned LRU store; eviction, recency, versions and the byte counter over whole histories |
| `Capacity.dfy` | a larger store contains a smaller one, and when it does not |
| `StoreOperations.dfy` | each store operation, read off the list of resident records |
| `Manager.dfy`, `ManagerTheorems.dfy` | one instance's cache manager; exactly what one acquire returns |
| `Runtime.dfy` | placement, planning, and the runtime over all managers |
| `Interleaving.dfy` | several managers over one store as a transition system; provenance and transparency |
| `Ledger.dfy` | counters and the local cache in every interleaving |
| `Dominance.dfy` | exact decision counts of served traces and the comparison of the three policies |
| `Contention.dfy` | exact decision counts when acquires interleave |
| `LocalReuse.dfy` | how the local bound affects a served trace |
| `Benchmark.dfy` | the benchmark's table of kept states and its wrong-layout check |
| `Protocol.dfy`, `Remote.dfy`, `RemoteTheorems.dfy` | framing over a fragmenting stream; server and client simulating the store; answers, refusals and requests that do not get through |
| `Codec.dfy` | packing and unpacking nested state |

How the model reads the source:

- Objects that update their fields are classes (`MemoryStateStore`, `LayoutStateManager`,
  `DynamicKVRuntime`, `Socket`, `StateTcpServer`, `TcpStateStoreClient`, `DynamicCache`). Each
  method's new state is given by a function of its old state, and the theorems are about
  those functions, so they speak of whole runs.
- A SHA-256 digest is represented by the value that is hashed. A derived store key is the
  policy's constructor applied to those values; `Text` keys are arbitrary client strings.
- A caller's compute function is represented by the payload it returns if it is called, or by
  the fact that it raises; the metadata of a put by what `dict(metadata or {})` makes of it, a
  dictionary or an exception; the clock by a `now` argument; JSON header text by an
  encode/decode pair with a stated round trip. `recv` returns any nonempty fragment.
- The lock makes each store operation one step. In `Interleaving.dfy` an acquire is three
  steps (consult, compute, publish), and steps of different managers interleave freely.

Results that a reader may not expect:

- The store's byte counter is not always the sum of the resident payloads. A put subtracts the
  payload it replaces before it converts its metadata, so a put whose metadata is not
  convertible (the server passes a request's metadata on unchecked) leaves the record and
  loses its bytes from the counter. `CounterExactly` gives the drift of every history and the
  exact condition for none, `NumberAsMetadata` a request that causes it, `FailuresForget` its
  repetition without limit, and `BoundExceeded` a store holding twice its bound. Eviction is
  stated with the drift; the other store theorems hold over such histories too.
- When acquires interleave, recomputes exceed the distinct keys by exactly the acquires that
  missed a key in flight elsewhere (`ExactUnlessOvertaken`); `RaceRecomputesTwice` is the
  smallest case.
- Capacity inclusion needs payload sizes fixed per key: `InclusionNeedsFixedSizes`.
- The codec does not round-trip a dictionary whose own `__graphkv_kind__` entry is one of the
  three reserved tags; `RoundTripExact` gives the exact condition, `ReservedTagGives` what
  such a dictionary comes back as.
- `remote_rejected` exceeds the number of `REMOTE_REJECTED` results exactly when a rejected
  acquire is in flight, or was given up because its compute function raised or its payload was
  larger than the store (`RejectionsExactly`; `RejectionCanBeLost` is such a run).
- A delivered client operation differs from the direct one exactly in these cases
  (`AgreeExactly`): a get or a delete of the empty key, which the server refuses and the store
  answers; and a put whose metadata is not convertible, which the client raises before sending
  anything, unless the store would raise for the same reason and had no bytes to lose. A put
  on the empty key fails on both sides.
- A request whose response the client cannot read (its header too long, or its payload over the
  client's limit) has been performed all the same (`RequestExactly`).
- The branch of the eviction loop that moves the excluded key to the end is never taken from
  `put`, which has just made that key the newest entry (`EvictKeepsLongestFit`); on its own the
  loop would spare the key there too (`EvictSparesExcluded`).

## Model

| member | source | states |
|---|---|---|
| Ordering.SortCanonical | src/graphkv/topology/model.py:16-19 | two lists sort to the same list exactly when they hold the same elements with the same multiplicities |
| Ordering.LexMeaning | src/graphkv/topology/model.py:72-81 | lists compare by their first difference, and a proper prefix is the smaller list |
| Ordering.StrMeaning | src/graphkv/topology/model.py:72-81 | strings compare by code points |
| Topology.TopologicalOrder | src/graphkv/topology/model.py:52-84 | the method with its dictionaries, edge set and ready list returns, for every graph, the error or order that depends only on the edge sequence's first fault and on the sets of roles and edges |
| Topology.ReadEdges | src/graphkv/topology/model.py:56-70 | the validation loop stops at the first faulty edge, or yields the successor lists and in-degree counts of all edges |
| Topology.FaultlessEdges | src/graphkv/topology/model.py:59-68 | no edge is faulty if and only if every edge joins two different active roles and no edge is repeated |
| Topology.LowerCounts | src/graphkv/topology/model.py:77-81 | lowering the counts of the scheduled role's successors restores: in-degree is the number of edges from unscheduled roles, and the ready list is the sorted set of roles with none |
| Topology.Drain | src/graphkv/topology/model.py:72-81 | the scheduling loop with the sorted ready list lists the roles as repeatedly taking the least role with no unscheduled predecessor does |
| TopologyTheorems.FirstFaultIsFirst | src/graphkv/topology/model.py:59-67 | the reported edge error belongs to the first edge that is faulty given the edges before it |
| TopologyTheorems.EdgeErrorExactly | src/graphkv/topology/model.py:58-67 | the first unacceptable edge is reported as inactive, as a self edge or as a duplicate, by the first check it fails |
| TopologyTheorems.CycleTestExact | src/graphkv/topology/model.py:53-83 | the acyclicity error is raised if and only if the graph is otherwise valid and has a directed cycle; duplicate roles and faulty edges are the only other rejections |
| TopologyTheorems.StuckCycle | src/graphkv/topology/model.py:82-83 | roles left waiting with no ready role among them contain a directed cycle, found by walking predecessors backwards |
| TopologyTheorems.OrderIsLeast | src/graphkv/topology/model.py:72-84 | an accepted graph's order lists every role once, puts every edge forward, and is lexicographically least among all orders that do |
| TopologyTheorems.LeastOrderUnique | src/graphkv/topology/model.py:72-84 | only one order is least, so those two facts determine the output |
| TopologyTheorems.OrderIgnoresListing | src/graphkv/topology/model.py:52-84 | two listings of the same roles and edges are accepted alike and give the same order |
| Identity.GraphIdentityCanonical | src/graphkv/topology/model.py:11-23 | two graphs share a complete-graph identity if and only if they hold the same roles and the same edges in some order |
| Identity.DigestSorted | src/graphkv/topology/model.py:16-19 | the hashed value lists the roles sorted and the edges sorted by source and then target |
| Identity.LayoutsForGraph | src/graphkv/runtime/identity.py:77-98 | the loop returns the graph's error, or a dictionary with each scheduled role's layout, whose contents `LayoutContents` gives |
| Identity.LayoutTableCovers | src/graphkv/runtime/identity.py:85-98 | for an accepted graph that dictionary has exactly the active roles, each with its own layout |
| Identity.LayoutContents | src/graphkv/runtime/identity.py:85-98 | a role's layout in that dictionary holds the model, its template version, the role, its sorted predecessors, one message placeholder for each of them and then the question, and token structure version v1 |
| Identity.InactiveRoleRefused | src/graphkv/topology/model.py:47-50 | asking for the predecessors of a role fails if and only if it is not active |
| Identity.PredecessorsList | src/graphkv/topology/model.py:47-50 | predecessors are listed sorted, once each, and are exactly the sources of the role's incoming edges |
| Identity.LayoutLocality | src/graphkv/runtime/identity.py:85-98 | in any two valid graphs a role's layout digests agree if and only if model, template version and predecessor set agree |
| Identity.GraphKeyDeterminesLayout | src/graphkv/runtime/identity.py:87-97 | valid graphs with equal identities give every role equal layouts |
| Store.MemoryStateStore.Create | src/graphkv/runtime/store.py:47-54 | a non-positive bound is rejected; otherwise the store starts empty |
| Store.MemoryStateStore.Get | src/graphkv/runtime/store.py:56-61 | a get returns the resident record and makes it the newest entry, or changes nothing |
| Store.MemoryStateStore.Put | src/graphkv/runtime/store.py:63-94 | a put reports the first failing check and changes nothing, or fails on its metadata after the replaced payload was taken off the counter, or leaves the longest suffix that fits of the old order without the key followed by the new record |
| Store.MemoryStateStore.Delete | src/graphkv/runtime/store.py:96-107 | a delete removes exactly the record and its bytes, reports absence, or reports a conflict and changes nothing |
| Store.MemoryStateStore.EvictToLimit | src/graphkv/runtime/store.py:118-128 | from any counter and with any excluded key, the loop keeps the counter's distance from the resident payloads, enforces the bound enlarged by that distance, and counts each dropped entry |
| Store.EvictKeepsLongestFit | src/graphkv/runtime/store.py:118-128 | when the excluded key is the newest entry and fits alone, the loop keeps the longest suffix that fits and that entry survives |
| Store.FitIsLongest | src/graphkv/runtime/store.py:118-128 | the kept suffix fits, and a suffix fits if and only if it is no longer than it |
| StoreOperations.GetExactly | src/graphkv/runtime/store.py:56-61 | a get returns the resident record whole and moves it to the end, the others keeping their order, or finds nothing and changes nothing |
| StoreOperations.DeleteExactly | src/graphkv/runtime/store.py:96-107 | a delete succeeds if and only if the key is resident and no version or the stored one is expected, and then exactly that record and its bytes go; otherwise nothing changes and absence or the two versions are reported |
| StoreOperations.PutRefusals | src/graphkv/runtime/store.py:70-81 | a put is refused for an empty key, then for its size, then for its expected version, and changes nothing |
| StoreOperations.StoredVersionUnique | src/graphkv/runtime/store.py:76-77 | every key has exactly one stored version: that of its record, or 0 without one |
| StoreOperations.PutExactly | src/graphkv/runtime/store.py:70-94 | a put of a dictionary succeeds if and only if it passes these checks, and stores the next version with the given payload, metadata and time as the newest entry |
| StoreOperations.BadPutExactly | src/graphkv/runtime/store.py:82-89 | past the checks, metadata that is not convertible fails, keeps all records and loses the bytes of the one to be replaced |
| StoreOperations.EvictSparesExcluded | src/graphkv/runtime/store.py:118-128 | wherever the excluded entry stands it is never evicted, and of the others exactly the longest suffix stays that fits beside it |
| StoreOperations.EvictWithoutExcluded | src/graphkv/runtime/store.py:118-128 | when the excluded key is not resident the loop keeps the longest suffix that fits |
| StoreTheorems.RunValid | src/graphkv/runtime/store.py:44-128 | in every reachable state keys are unique, versions are positive, the counter is within the bound, and it misses exactly the bytes that puts failing on their metadata forgot |
| StoreTheorems.CounterExactly | src/graphkv/runtime/store.py:75-94 | after any history the counter is the sum of the resident payloads if and only if no put failed on its metadata while a nonempty payload was resident under its key |
| StoreTheorems.DictionariesKeepExact | src/graphkv/runtime/store.py:75-94 | if every put passes a dictionary the counter is exact and the resident payloads are within the bound |
| StoreTheorems.FailuresForget | src/graphkv/runtime/store.py:82-89 | repeating a failing put lowers the counter by the same payload each time, below any number |
| StoreTheorems.BoundExceeded | src/graphkv/runtime/store.py:82-94 | after one failing put the store keeps twice its bound |
| StoreTheorems.PutKeepsLongestSuffix | src/graphkv/runtime/store.py:75-94 | a successful put keeps exactly the longest suffix ending in the new record that fits the bound and the drift, and counts what it drops; a rejected put of a dictionary changes nothing |
| StoreTheorems.RecencyOrder | src/graphkv/runtime/store.py:56-128 | after any history the store's order is its resident keys sorted by last put or get hit |
| StoreTheorems.EvictedWereOldest | src/graphkv/runtime/store.py:90-128 | every key a put evicts was last touched before every key that survives that put |
| StoreTheorems.StepVersion | src/graphkv/runtime/store.py:75-107 | only a successful put on the key changes its version, by one; the key leaves only by its own delete or by eviction in a put of another key |
| StoreTheorems.VersionsCountPuts | src/graphkv/runtime/store.py:76-89 | while a key stays resident its version rises by the number of successful puts on it |
| StoreTheorems.SameExpectationSeparated | src/graphkv/runtime/store.py:76-107 | between two successful puts on a key with the same expected version the key was deleted or evicted |
| Capacity.ApplyInclusion | src/graphkv/runtime/store.py:56-128 | one read-through access or delete keeps the smaller store's recency order a suffix of the larger one's |
| Capacity.CapacityInclusion | src/graphkv/runtime/store.py:56-128 | after any read-through history with sizes fixed per key, the smaller store's order is a suffix of the larger one's and every key it holds the larger one holds |
| Capacity.InclusionNeedsFixedSizes | src/graphkv/runtime/store.py:56-128 | four reads with one payload returning smaller leave the smaller store holding a key the larger one dropped |
| Manager.LayoutStateManager.Create | src/graphkv/runtime/manager.py:59-75 | a non-positive local bound is rejected; otherwise the manager starts empty |
| Manager.LayoutStateManager.Acquire | src/graphkv/runtime/manager.py:90-174 | an acquire's result, its tables and counters and the shared store are those of consulting local and remote state and settling a miss; if the compute function raises, consulting is all that happened |
| Manager.LayoutStateManager.ConsultStores | src/graphkv/runtime/manager.py:117-152 | a local hit touches the key, an admitted remote record is remembered and counted, a rejected one is counted, and the store sees one get |
| Manager.LayoutStateManager.SettleMiss | src/graphkv/runtime/manager.py:154-174 | a computed payload is published, remembered and counted; a failed publication leaves the tables and counters unchanged |
| Manager.LayoutStateManager.RememberRecord | src/graphkv/runtime/manager.py:180-192 | dictionary and list stay in step: same keys, no duplicates, within the bound |
| Manager.LayoutStateManager.ClearLocal | src/graphkv/runtime/manager.py:176-178 | both local tables are emptied and nothing else changes |
| Manager.RememberValid | src/graphkv/runtime/manager.py:180-192 | remembering a record keeps the dictionary and the list describing the same bounded set of keys |
| ManagerTheorems.AcquireExactly | src/graphkv/runtime/manager.py:117-174 | a local key is a local hit with its remembered version; a shared one is a remote hit if and only if there is no admission rule or it accepts the record; otherwise a rejection is counted, and the payload is computed, published as the next version, remembered and counted, or the failure leaves the tables alone |
| ManagerTheorems.AcquireAlone | src/graphkv/runtime/manager.py:154-174 | without a shared store a key that is not local is computed, remembered as version 1 and counted as nothing stored |
| ManagerTheorems.AcquireWithoutSharing | src/graphkv/runtime/manager.py:102-115 | under reset the computed payload is returned as version 0 and only the recompute counter moves |
| ManagerTheorems.KeysExactly | src/graphkv/runtime/manager.py:77-88 | when two roles of two valid graphs share a key, under each policy |
| Runtime.DynamicKVRuntime.Create | src/graphkv/runtime/orchestrator.py:32-51 | empty or repeated instances are rejected, then an unknown placement; otherwise each instance gets its own fresh manager over the one store |
| Runtime.DynamicKVRuntime.Plan | src/graphkv/runtime/orchestrator.py:53-75 | planning fails exactly when the graph is rejected, and otherwise lists the invocations of the roles in topological order; `PlacementExactly` and `PlanEntries` say what they hold |
| Runtime.DynamicKVRuntime.Acquire | src/graphkv/runtime/orchestrator.py:77-99 | an acquire changes only the addressed instance's manager and the shared store, as that manager's acquire does; an unknown instance changes nothing |
| Runtime.PlanCovers | src/graphkv/runtime/orchestrator.py:60-75 | a plan holds every active role exactly once |
| Runtime.PlanFollowsEdges | src/graphkv/runtime/orchestrator.py:62-75 | a role is planned after each of its predecessors |
| Runtime.PlanEntries | src/graphkv/runtime/orchestrator.py:63-74 | every invocation has an existing instance, its role's own layout and its graph's identity |
| Runtime.PlacementExactly | src/graphkv/runtime/orchestrator.py:63-71 | each role is placed by the sum of the bytes of its UTF-8 encoding, plus position and repetition under round robin, modulo the number of instances |
| Utf8.RoundTrip | src/graphkv/runtime/orchestrator.py:63-63 | that encoding decodes back to the role |
| Utf8.CharShape | src/graphkv/runtime/orchestrator.py:63-63 | each character takes the bytes, and only as many, that section 3 of RFC 3629 gives its code point |
| Runtime.InvocationMetadataExactly | src/graphkv/runtime/orchestrator.py:85-91 | the metadata name the request, role, instance and layout unless the caller's entries override them, and hold the caller's entries besides |
| Runtime.RuntimeAcquireExactly | src/graphkv/runtime/orchestrator.py:77-99 | an acquire of an unknown instance is refused; of a known one it is that manager's acquire and moves no other manager |
| Runtime.RoundRobinBalance | src/graphkv/runtime/orchestrator.py:63-65 | over any n consecutive values of position plus repetition a role visits each of n instances exactly once |
| Interleaving.UninterruptedAcquire | src/graphkv/runtime/manager.py:90-174 | the three steps with nothing in between are one acquire, whether or not the compute function raises |
| Interleaving.EveryAnswerWasComputed | src/graphkv/runtime/manager.py:100-174 | in every interleaving, with any admission rules, evictions and deletes, every returned or stored payload was produced by a compute call for the same key |
| Interleaving.StoreStaysExact | src/graphkv/runtime/manager.py:157-162 | managers put dictionaries only, so in every interleaving the store's counter is exact and its payloads are within the bound |
| Interleaving.WorldRuns | src/graphkv/runtime/manager.py:130-162 | in every interleaving the shared store has the history of the gets, puts and deletes that reached it, so every theorem about store histories applies |
| Interleaving.Transparency | src/graphkv/runtime/manager.py:100-174 | if compute is a function of the key, every acquire in every interleaving returns what compute would have returned |
| Interleaving.KeyDeterminesLayout | src/graphkv/runtime/manager.py:77-88 | among invocations planned with one model, equal graph or layout keys mean equal layouts |
| Interleaving.PayloadsCarryLayouts | src/graphkv/runtime/manager.py:100-174 | if stored payloads carry the layout they were computed for, every payload a manager with shared keys returns carries the layout asked for |
| Interleaving.PlansArePlanned | src/graphkv/runtime/orchestrator.py:60-75 | everything the runtime plans for an accepted request satisfies the planning hypothesis of the other theorems |
| Interleaving.RaceRecomputesTwice | src/graphkv/runtime/manager.py:130-163 | two managers that consult before either publishes both recompute, and the second publication makes version 2 |
| Ledger.CountersAndCache | src/graphkv/runtime/manager.py:102-192 | in every interleaving the counters add up to the completed acquires and their bytes, rejections to those returned, given up and in flight, and the local list is the last N distinct keys acquired since the last clear |
| Ledger.RejectionsExactly | src/graphkv/runtime/manager.py:149-174 | the rejection counter equals the rejected results if and only if no rejected acquire is in flight and none ended in a raising compute function or an oversized payload |
| Ledger.RejectionCanBeLost | src/graphkv/runtime/manager.py:149-174 | a rejected fetch followed by a payload larger than the store is counted and returned by nothing |
| Ledger.RecentKeysMeaning | src/graphkv/runtime/manager.py:187-192 | the reference list holds each acquired key once, in the order of last use |
| Ledger.LocalHitExactly | src/graphkv/runtime/manager.py:117-128 | an acquire is a local hit if and only if its key is among the last N distinct keys |
| LocalReuse.ServedHitExactly | src/graphkv/runtime/manager.py:117-128 | in a served trace a call is a local hit if and only if its key is among the last N distinct keys asked of its instance |
| LocalReuse.LargerLocalKeepsHits | src/graphkv/runtime/manager.py:180-185 | the same trace served with a larger local bound keeps every local hit of the smaller one, whatever the two stores do |
| Dominance.RecomputesAreDistinctKeys | src/graphkv/runtime/manager.py:117-174 | with an undisturbed shared store the summed recomputes are exactly the distinct keys of the trace |
| Dominance.ExactDecisionCounts | src/graphkv/runtime/manager.py:117-174 | without local overflow remote hits are distinct (instance, key) pairs minus distinct keys, and all other acquires are local hits |
| Dominance.StablePlacementNeverFetches | src/graphkv/runtime/orchestrator.py:63-71 | under stable placement there are then no remote hits |
| Dominance.StablePlansAreStable | src/graphkv/runtime/orchestrator.py:62-74 | a trace of any requests, each planned under stable placement, meets that hypothesis and the planning hypothesis |
| Dominance.StableTracesNeverFetch | src/graphkv/runtime/orchestrator.py:62-74 | so such a trace, undisturbed and with local room, has no remote hits |
| Dominance.PlansDifferInInstanceOnly | src/graphkv/runtime/orchestrator.py:62-74 | other placements, instance lists and positions change only the instances of a plan |
| Dominance.ResetRecomputesAll | src/graphkv/runtime/manager.py:102-115 | under reset every invocation recomputes and the store is never touched |
| Dominance.RoomForAllIsUndisturbed | src/graphkv/runtime/store.py:73-94 | a store that could hold every payload of the trace at once never evicts and no acquire fails |
| Dominance.LayoutKeysNeverMore | src/graphkv/runtime/identity.py:87-97 | along the same planned invocations there are never more distinct layout keys than graph keys |
| Dominance.PolicyDominance | src/graphkv/runtime/manager.py:77-174 | total recomputes under local layout are at most those under whole graph, at most those under reset, which are all invocations, whatever the instances, placement, local bounds and store sizes |
| Dominance.PolicyDominanceWithRoom | src/graphkv/runtime/manager.py:77-174 | the same from conditions known before the runs |
| Contention.InterleavedRecomputes | src/graphkv/runtime/manager.py:117-174 | in every undisturbed interleaving recomputes are the distinct acquired keys plus the publications of keys already stored, and with the acquires in flight they are the keys acquired or in flight plus the misses of keys in flight |
| Contention.ExactUnlessOvertaken | src/graphkv/runtime/manager.py:130-163 | once all acquires completed, recomputes are the distinct keys plus the misses of keys in flight elsewhere, so they are the distinct keys if and only if there was no such miss |
| Benchmark.StatesAreRight | scripts/run_gpu_benchmark.py:216-239 | along acquires whose equal keys mean equal layouts, the table of kept states always holds, for each key, a state of its layout |
| Benchmark.NoWrongLayout | scripts/run_gpu_benchmark.py:216-242 | in every interleaving and under every policy each acquire finds a state to activate and it is of the layout asked for, so the benchmark's check never fires |
| Protocol.BigEndianRoundTrip | src/graphkv/runtime/protocol.py:10-10 | an eight-byte prefix decodes to the length it encodes |
| Protocol.BigEndianDigits | src/graphkv/runtime/protocol.py:10-10 | the most significant byte of a length comes first |
| Protocol.FrameExactly | src/graphkv/runtime/protocol.py:30-41 | a frame is the eight bytes of the header's length, the header with the payload's size, and the payload; a header over one mebibyte is refused |
| Protocol.ParseExactly | src/graphkv/runtime/protocol.py:44-57 | from any stream, each way receiving fails, and otherwise the header, the payload and what is left |
| Protocol.RecvExact | src/graphkv/runtime/protocol.py:18-27 | however the stream fragments, exactly the requested bytes are returned and consumed, or the end of the stream is reported |
| Protocol.SendFrame | src/graphkv/runtime/protocol.py:30-41 | a frame is appended whole, or nothing is sent when the header is too large |
| Protocol.RecvFrame | src/graphkv/runtime/protocol.py:44-57 | the result and the bytes left depend only on the bytes of the stream, not on its fragmentation |
| Protocol.FrameRoundTrip | src/graphkv/runtime/protocol.py:30-57 | a received frame is the sent header with its payload size and the sent payload, and nothing beyond the frame is consumed |
| Protocol.BackToBack | src/graphkv/runtime/protocol.py:30-57 | frames sent back to back are received one by one, in order |
| Protocol.StrictPrefix | src/graphkv/runtime/protocol.py:18-57 | every strict prefix of a frame ends in end-of-stream and yields no frame |
| Remote.StateTcpServer.Handle | src/graphkv/runtime/server.py:18-35 | one connection changes the store by one dispatch and answers with its response or the error envelope |
| Remote.StateTcpServer.DispatchOn | src/graphkv/runtime/server.py:37-82 | each request performs its operation on the store, or is refused without touching it; a put whose metadata is not convertible fails after the counter was lowered |
| Remote.DispatchIsStep | src/graphkv/runtime/server.py:37-82 | whatever a request holds, it is one operation of the store or leaves the store alone |
| Remote.ServerRuns | src/graphkv/runtime/server.py:18-82 | so the store behind a server has the history of its requests' operations, and every theorem about histories applies |
| Remote.NumberAsMetadata | src/graphkv/runtime/server.py:62-70 | a put request with a nonzero number as metadata fails with TypeError, keeps the record and lowers the counter by its size |
| RemoteTheorems.ServedGet | src/graphkv/runtime/server.py:50-62 | a get is answered with the record's fields and payload, or as not found |
| RemoteTheorems.ServedPut | src/graphkv/runtime/server.py:63-74 | a put of an object is answered with the next version and its time, or the store's error |
| RemoteTheorems.ServedDelete | src/graphkv/runtime/server.py:75-81 | a delete is answered with whether it deleted, or the conflict |
| RemoteTheorems.ServedStats | src/graphkv/runtime/server.py:41-44 | the statistics name records, byte counter, bound and evictions; a ping is answered with nothing |
| RemoteTheorems.BadVersionRefused | src/graphkv/runtime/server.py:64-79 | an expected version that is no number is refused without touching the store |
| RemoteTheorems.KeylessRefused | src/graphkv/runtime/server.py:46-48 | a request without a nonempty string as key is refused |
| RemoteTheorems.UnknownRefused | src/graphkv/runtime/server.py:82-82 | so is any other operation |
| RemoteTheorems.MetadataExactly | src/graphkv/runtime/server.py:65-70 | which metadata a put request may carry, and what the others raise |
| RemoteTheorems.DictExactly | src/graphkv/runtime/store.py:154-154 | which values a dictionary can be built from: an object, an empty string, a list of pairs |
| RemoteTheorems.StoreErrorNames | src/graphkv/runtime/server.py:23-32 | the exception class each error of the store is reported as |
| RemoteTheorems.ReadGetExactly | src/graphkv/runtime/store.py:146-156 | whatever a get's response holds, the client returns the record it tells, nothing, or an error |
| RemoteTheorems.ReadDeleteExactly | src/graphkv/runtime/store.py:181-186 | a delete's response must say whether something was deleted, as a Python truth value |
| RemoteTheorems.RequestExactly | src/graphkv/runtime/store.py:196-210 | for every request: not sent, refused by the server, or performed, and then answered, or performed although the client cannot read the response |
| Remote.TcpStateStoreClient.Exchange | src/graphkv/runtime/store.py:196-210 | a request is framed, served and read back, and an error envelope becomes a conflict or a remote failure |
| Remote.RequestDispatches | src/graphkv/runtime/server.py:18-35 | when both frames get through, a request is a dispatch on the server's store |
| Remote.GetSimulates | src/graphkv/runtime/store.py:146-156 | a client get returns the record of a direct get, in every field, and moves the server's store alike |
| Remote.PutSimulates | src/graphkv/runtime/store.py:158-179 | a client put of a dictionary returns the record or the conflict of a direct put and moves the server's store alike |
| Remote.DeleteSimulates | src/graphkv/runtime/store.py:181-186 | a client delete returns the flag or the conflict of a direct delete and moves the server's store alike |
| Remote.SessionSimulates | src/graphkv/runtime/store.py:146-210 | for every sequence of operations that agree and whose frames get through, all answers and the final store are those of direct calls |
| Remote.AgreeExactly | src/graphkv/runtime/store.py:146-210 | a delivered operation is the direct one if and only if it is a put of a dictionary, a get or delete of a nonempty key, or a put failing on its metadata with nothing else to refuse or to lose |
| Codec.PackRejectsUnsupported | src/graphkv/runtime/codec.py:57-87 | packing fails if and only if some leaf is of an unsupported type |
| Codec.RoundTripExact | src/graphkv/runtime/codec.py:57-118 | a supported value comes back with its shape and plain values, and every tensor with its contents, on the device, contiguous and detached, if and only if none of its dictionaries has a reserved kind tag |
| Codec.EncodeDecodeExact | src/graphkv/runtime/codec.py:40-55 | the same exact condition for encode and decode with the format field |
| Codec.OtherFormatsRefused | src/graphkv/runtime/codec.py:53-54 | a payload whose format is missing or another is refused |
| Codec.PackedIsPlain | src/graphkv/runtime/codec.py:57-87 | what travels has no cache objects and only CPU, contiguous, detached tensors |
| Codec.ReservedTagGives | src/graphkv/runtime/codec.py:102-114 | what a dictionary with its own reserved tag comes back as, for every tag and every value under it |
| Codec.ReservedTagBreaksRoundTrip | src/graphkv/runtime/codec.py:102-110 | a dictionary with its own "tuple" tag comes back as a tuple |
| Codec.RebuildCache | src/graphkv/runtime/codec.py:110-114 | the rebuilt cache has the stored layers, in order, on the device |

## Left out

- Sockets, timeouts, threads and `socketserver`: a connection is a pair of byte sequences and each store operation is one step.
- SHA-256, hexadecimal digests and JSON text: digests are canonical values, and header text is an assumed faithful codec.
- Clock values and timing counters (`load_ns`, `compute_ns`, `elapsed_ns`); `created_ns` is carried as an opaque field.
- The dictionary Python builds from metadata sent as a list of pairs is a parameter, with keys that are not strings as their JSON text; which lists are accepted, and what the others raise, is modelled.
- Floating-point numbers in headers are opaque, except for being zero and for what `int` makes of them.
- Header fields holding numerals as strings: `int("5")` is treated like any other non-integer field.
- Keys derived by a manager reach the TCP layer as their rendered strings; the simulation is stated for text keys.
- Concurrent acquires on one manager: a manager has one acquire in flight at a time, while different managers interleave.
- Puts by parties other than managers in the interleaving model, failing ones included; foreign gets and deletes are included.
- `torch.save`, `torch.load`, older cache layouts and transformers internals: a tensor is opaque contents with a device, a layout flag and an autograd flag, and updating a layer index equal to the layer count appends.
- Subclasses of built-in containers, such as named tuples, which come back as plain tuples.
- The benchmark's second check, that a loaded state has the same prompt tokens; its kept states are represented by their layout digests.
- Trace loading, metrics files, the demo, the benchmark driver, argument parsing and the runtime's statistics report.
