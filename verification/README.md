# Borderless in Dafny

A Dafny 4.11 model of the logic of the *borderless* keyboard, mouse and clipboard
sharing tool, with proofs about it. `dafny verify dfyconfig.toml` checks everything.

## What is modelled

| file | subject |
|---|---|
| `Core.dfy` | node ids, clipboard snapshots, wire frames, input events |
| `Engine.dfy` | the per-node clipboard engine: Lamport counter and bounded history |
| `Relay.dfy`, `RelayTheorems.dfy` | the clipboard protocol on any finite graph: inductive invariant, convergence, termination, causality |
| `Star.dfy`, `StarTheorems.dfy` | the deployed hub-and-spokes topology with first-in first-out queues, its refinement to the relay graph, conservation of traffic |
| `Sessions.dfy` | the hub and spoke objects, one method for each thing their tasks do |
| `Deployment.dfy` | those objects joined by connections: every schedule of their tasks is a run of the star |
| `Desktops.dfy` | what the operating systems' clipboards are given over whole schedules |
| `Delivery.dfy` | over whole schedules: from a fetch request at the hub object to the bytes a spoke reads off its connection, and from captured input to what a spoke emits |
| `LazyStore.dfy` | the content-addressed cache of large payloads |
| `Framing.dfy` | length-prefixed frames, segmented reads, decoding, concurrent senders |
| `Fetch.dfy` | chunking, replies, reassembly by index, and the whole way from the store to the receiver |
| `Layout.dfy`, `Modifier.dfy`, `Router.dfy` | screen adjacency, the modifier mask, the input router and its traces |
| `X11Capture.dfy`, `X11Emit.dfy` | sparse valuators, buttons, keys; scroll emission |
| `PeerStore.dfy` | trusted peers in memory and in their file |
| `Sums.dfy` | sums over maps, quotients, binary digits |

How the protocol is modelled. A run is a list of steps executed from the initial state; theorems
quantify over every list. Recording a snapshot (one critical section of the engine) and handing it
to the neighbours are separate steps, so hand-overs from different sessions may overtake each other.
Local copies are an unconstrained environment step: any node may copy anything at any time. The
relay graph keeps channels as multisets; the star keeps each session's two directions as queues and
is proved to be an instance of the relay graph with the same global log of events. Below the star are
the hub and spoke objects, with one method for what each reader, writer, watcher and broadcast task
does without giving way: every schedule of those methods, with frames of all kinds on the
connections, is proved to be a run of the star in which frames other than snapshots are invisible.
The log, and the relay and star states themselves, are specification only.

Objects the source updates in place are classes (`Engine`, `LazyStore`, `Connection`, `Hub`,
`Spoke`, `Layout`, `ModifierState`, `Router`, `Capture`, `Emitter`, `PeerStore`); their methods are
proved against value-level functions or ghost lists, and the protocol and run theorems are about
those same functions, or (`DeployAndPerform`, `ObjectsConverge`, `ObjectsNeverEcho`, `CopyReachesDesktops`,
`InputArrives`) about the objects. Wherever a method's contract names such a function, its clauses or a
lemma beside it also say in plain numbers and literals what the function yields.

Parameters and inputs from outside: the clock (`now`, `ts`), the hash function (a field of the
store), the frame codec, the keyboard mapping, the success or failure of file and clipboard writes,
and the splitting of the byte stream. The fetch theorems assume three things of the codec
(`CodecFits`): the frames sent decode to themselves, the header of a chunk frame for the fetched hash
adds at most a slack that leaves room for one chunk in a frame, and no other frame sent is above the
frame limit. `TaggedCodecFits` and `AssumptionsCanBeMet` show codecs that satisfy them.

## Results that are conditions rather than plain guarantees

* Two copies made concurrently can carry the same version, and then the nodes do not agree on the
  content (`ConcurrentCopiesDiverge`). At quiescence the newest entries agree if and only if the
  largest version was produced once (`ContentConverges`, `StarConverges`). The test comment at
  crates/clipboard/src/lib.rs:262-264 says that the network cannot see two snapshots sharing a clock
  value; that holds only for copies ordered by happens-before (`LamportClockCondition`).
  The next copy anywhere, once it has spread, is everybody's newest entry (`NextCopyReconciles`,
  `NextCopyReconcilesStar`).
* Resolving a freshly produced image gives its bytes back except when it is large and its hash is
  already taken by other bytes (`ProduceImage`).
* `connect` keeps a layout symmetric if and only if it overwrites no other pairing.
* A router run has the trace shape if and only if no pointer step taken while the cursor was here
  handed it to this very node (`RunHasShapeIff`); `SelfNeighborLosesShape` is a run that does.
* The newest copy is what every other node's desktop shows last, once it has spread, if the largest
  version was produced once and the writes of that copy worked (`CopyReachesDesktops`).
* The chunk casts are lossless if and only if the payload has at most 2^32 - 1 chunks, and a receiver
  told nothing but the frames gets the bytes if and only if, besides, every chunk arrived
  (`ReassemblesIff`).
* Under insertions the store is exactly what an unbounded list of its entries shows within the cap
  (`InsertionsKeepNewestThatFit`). With removals it is a suffix of the list, but need not be the
  longest that fits (`StoreIsSuffix`): what an entry since removed had evicted does not come back. What
  it holds then is exactly what some insertion entered and every later operation spared
  (`HeldIffSpared`).
* A button edge is read back as itself exactly for the buttons named in `ButtonRoundTripIff`.

## Where the code and its comments differ

The model follows the code.

* crates/core/src/clipboard.rs:10-12 asks for max(local, remote) + 1 on acceptance; the engine sets
  the clock to the snapshot's version (crates/clipboard/src/lib.rs:134-136).
* crates/clipboard/src/lazy.rs:12 promises a per-entry cap at insert time; there is none, and an
  oversized entry is stored alone.
* crates/transport/src/peer_store.rs:43 says a missing file is created on opening; it is not.
* crates/pal-x11/src/capture.rs:189-192 speaks of summing; the loop assigns, which is the same
  because an axis occurs at most once.
* crates/pal-x11/src/capture.rs:324 speaks of rounding toward zero; taking the integral half of a
  32:32 value rounds down.
* crates/input-router/src/router.rs:111-114 speaks of a return cross; no code path returns.

## Model

| member | source | states |
|---|---|---|
| ClipboardEngine.Engine.constructor | crates/clipboard/src/lib.rs:70-79 | a new engine has version 0, no history, and keeps max(1, limit) entries |
| ClipboardEngine.Engine.Remember | crates/clipboard/src/lib.rs:153-158 | a full history loses its oldest entry, the new one goes last |
| ClipboardEngine.Engine.ProduceText | crates/clipboard/src/lib.rs:83-94 | the snapshot carries the next version, this node as origin, the clock's time and the text; the engine stays the bounded view of the log extended by it |
| ClipboardEngine.Engine.ObserveRemote | crates/clipboard/src/lib.rs:120-139 | a snapshot is applied if and only if another node made it and its version is above the clock; then the clock is its version and it is remembered, otherwise nothing changes |
| ClipboardEngine.Engine.History | crates/clipboard/src/lib.rs:142-144 | the history is exactly the last entries of the unbounded log, as many as the limit allows, newest last |
| ClipboardEngine.AcceptRefinesLog | crates/clipboard/src/lib.rs:133-138 | accepting a newer snapshot keeps: history is the last min(limit, length) log entries, versions strictly increase, the last version is the clock |
| ClipboardEngine.NewestIsLast | crates/clipboard/src/lib.rs:142-148 | the newest entry always survives the bound and has the clock as its version |
| Relay.StepKeepsInv | crates/clipboard/src/lib.rs:117-139 | every protocol step keeps the invariant: histories, sources of queued frames, causal log, and that a node is behind a neighbour only while the missing version is on its way |
| Relay.ExecKeepsInv | crates/clipboard/src/lib.rs:117-139 | the invariant holds in every reachable state of every valid graph |
| RelayTheorems.ClocksConverge | crates/clipboard/src/lib.rs:120-139 | on a connected graph, when nothing is queued every clock equals the largest version ever produced |
| RelayTheorems.NeighbourClocksConverge | crates/clipboard/src/lib.rs:231-258 | on any graph, when nothing is queued neighbouring clocks are equal |
| RelayTheorems.ContentConverges | crates/clipboard/src/lib.rs:120-139 | on a connected graph, when nothing is queued all newest entries agree if and only if the largest version was produced once |
| RelayTheorems.MaximumStaysNewest | crates/clipboard/src/lib.rs:126-132 | whoever produced the largest version keeps its own copy as newest |
| RelayTheorems.NextCopyReconciles | crates/clipboard/src/lib.rs:120-139 | after a quiescent state of a connected graph, however divergent, one more copy anywhere, once it has spread, is exactly the newest entry of every node |
| RelayTheorems.DeliverLowersWork | crates/clipboard/src/lib.rs:120-139 | delivering a frame, applied or ignored, strictly lowers the work left |
| RelayTheorems.DeliveryTerminates | crates/clipboard/src/lib.rs:117-139 | between copies, every sequence of deliveries and hand-overs is at most as long as the work measure of the state it starts in |
| RelayTheorems.StuckIsQuiescent | crates/clipboard/src/lib.rs:117-139 | in a reachable state only copies are possible if and only if nothing is queued |
| RelayTheorems.MaximalContinuationConverges | crates/clipboard/src/lib.rs:117-139 | from any reachable state of a connected graph, every sequence of deliveries and hand-overs is bounded by the work left, and one that cannot go on ends with all clocks at the largest version produced so far |
| RelayTheorems.SomeContinuationSettles | crates/clipboard/src/lib.rs:117-139 | from any reachable state some such sequence leaves nothing queued |
| RelayTheorems.RecordedOnce | crates/clipboard/src/lib.rs:126-132 | no node produces or applies the same snapshot twice |
| RelayTheorems.LamportClockCondition | crates/clipboard/src/lib.rs:83-94 | a copy that happens after another event, through any chain of local steps and deliveries, has a strictly larger version |
| RelayTheorems.AppliedIsCaused | crates/clipboard/src/lib.rs:117-139 | every apply happens after the copy of exactly that snapshot at its origin |
| RelayTheorems.VersionsNameSnapshots | crates/core/src/clipboard.rs:20-28 | origin and version identify one snapshot in all channels, hand-overs and histories, and it is the one that was produced |
| RelayTheorems.NothingOutrunsItsOrigin | crates/clipboard/src/lib.rs:122-133 | everything queued, waiting or kept has a version at most the clock of its origin |
| RelayTheorems.OriginTestIsRedundant | crates/clipboard/src/lib.rs:122-133 | for every deliverable frame the decision is the same without the self-origin test |
| RelayTheorems.HistoryIsWindow | crates/clipboard/src/lib.rs:153-158 | in every reachable state each history is exactly the last min(max(1, configured limit), recorded) snapshots recorded at that node |
| Star.StarRefinesRelay | crates/cli/src/runtime/server.rs:286-303 | every run of the hub-and-spokes system is a run of the relay graph ending in the same engines, queues and log |
| Star.SimulateSpokeRead | crates/cli/src/runtime/client.rs:233-238 | a spoke that applies a snapshot forwards it to nobody |
| Star.SimulateFanOut | crates/cli/src/runtime/server.rs:241-251 | a broadcast that skips the sender is the relay's hand-over to all other neighbours |
| Star.NeverSentBack | crates/cli/src/runtime/server.rs:293-303 | no snapshot of a spoke is ever queued back to it, and a spoke queues only its own |
| StarTheorems.StarConverges | crates/cli/src/runtime/server.rs:286-303 | once all queues are empty every clock equals the largest produced version, and all newest entries agree if and only if it was produced once |
| StarTheorems.StarKeepsLast | crates/clipboard/src/lib.rs:70-79 | the same in every run of the star: each history is the last min(max(1, configured limit), recorded) snapshots of its node |
| StarTheorems.StarClockCondition | crates/cli/src/runtime/common.rs:66-103 | the Lamport clock condition in the deployed topology |
| StarTheorems.StarOriginTestIsRedundant | crates/clipboard/src/lib.rs:122-125 | in the star the self-origin test never changes a decision |
| StarTheorems.ConcurrentCopiesDiverge | crates/clipboard/src/lib.rs:120-139 | a run in which hub and spoke copy at once, share version 1, and keep different content until somebody copies again |
| StarTheorems.NextCopyReconcilesStar | crates/clipboard/src/lib.rs:120-139 | in the star, the next copy at the hub or at any spoke ends every such divergence |
| StarTheorems.StepPays | crates/cli/src/runtime/server.rs:241-251 | a copy raises the deliveries owed by the number of spokes n; any other step pays off exactly what it delivers, and n for a frame the hub drops, and strictly lowers a weighted count of queued frames and waiting broadcasts |
| StarTheorems.TrafficIsConserved | crates/cli/src/runtime/server.rs:241-251 | in every run with n spokes: deliveries, plus n - 1 for each frame the hub dropped, plus those still owed, are exactly n per copy |
| StarTheorems.QuietOwesNothing | crates/cli/src/runtime/server.rs:241-251 | once all queues are empty no delivery is owed |
| StarTheorems.NoEchoStorm | crates/cli/src/runtime/server.rs:114-118 | with n spokes, k copies cause at most k*n frame deliveries and k*(n+1) further steps in any interleaving |
| Sessions.HandleRemoteClipboard | crates/cli/src/runtime/common.rs:66-96 | the snapshot is returned for relaying exactly when the engine accepted it, and then written to the OS clipboard; a failing write changes nothing else |
| Sessions.WatchToFrame | crates/cli/src/runtime/common.rs:100-103 | a local text becomes a clipboard frame with the next version |
| Sessions.ProduceImageSnapshot | crates/clipboard/src/lib.rs:98-115 | an image copy takes the next version and keeps its format, its bytes go inline up to 256 KiB and to the store above, and without hash collisions its payload resolves to them |
| Sessions.Hub.BroadcastToAll | crates/cli/src/runtime/server.rs:241-251 | every writer queue but the excluded one gets the frame once, at its end |
| Sessions.Hub.Receive | crates/cli/src/runtime/server.rs:290-331 | up to its broadcast: an accepted snapshot goes to the OS clipboard if that works and waits to be relayed, a fetch is answered to the asker only, input and other frames change nothing |
| Sessions.Hub.Relay | crates/cli/src/runtime/server.rs:293-303 | what a session's reader accepted goes to every other spoke, possibly after other sessions went on |
| Sessions.Hub.CopyText | crates/cli/src/runtime/common.rs:108-122 | the watcher task turns a local text into the next snapshot and queues it for the broadcast loop |
| Sessions.Hub.BroadcastLocal | crates/cli/src/runtime/server.rs:114-118 | the broadcast loop sends the oldest queued copy to every spoke |
| Sessions.Spoke.OnFrame | crates/cli/src/runtime/client.rs:233-257 | a spoke applies or drops snapshots without sending them on, writes what it applied to the OS clipboard if that works, answers every fetch with a miss, emits input only when enabled |
| Sessions.Spoke.CopyText | crates/cli/src/runtime/client.rs:180-192 | a local copy is queued once for the hub |
| Deployed.TaskAmounts | crates/cli/src/runtime/server.rs:286-331 | what a task makes of the objects' fields is the matching star step; writer tasks and frames other than snapshots are no step at all |
| Deployed.ScheduleIsStarRun | crates/cli/src/runtime/server.rs:286-331 | every schedule of tasks from the start is a run of the star |
| Deployed.HubTurnInStar | crates/cli/src/runtime/server.rs:241-331 | any method call on the hub object, whatever the others hold, is the matching star step or invisible to the star |
| Deployed.SpokeTurnInStar | crates/cli/src/runtime/client.rs:180-257 | the same for a spoke object |
| Deployed.PerformAll | crates/cli/src/runtime/server.rs:286-331 | hub and spoke objects carrying out any schedule end in the state the star reaches by the matching run |
| Deployed.DeployAndPerform | crates/cli/src/runtime/server.rs:54-86 | the same from nothing: hub and spoke objects are made with their configured limits and carry out any schedule |
| Deployed.BlockedIffDrained | crates/cli/src/runtime/server.rs:272-331 | no deadlock: after any schedule readers, writers and the broadcast loop are all blocked if and only if nothing is queued, on a wire or waiting, and anybody connected can copy at any time |
| Deployed.ObjectsConverge | crates/clipboard/src/lib.rs:120-139 | after any schedule, once no snapshot is queued or on a wire, all engine objects have the largest version produced, and all newest entries agree if and only if it was produced once |
| Deployed.ObjectsKeepLast | crates/clipboard/src/lib.rs:153-158 | after any schedule each engine object keeps exactly the last min(max(1, configured limit), recorded) snapshots of its node |
| Deployed.ObjectsNeverEcho | crates/cli/src/runtime/server.rs:293-303 | no snapshot of a spoke is ever in the hub object's queue for it or on its wire |
| Desktops.ObjectsShow | crates/cli/src/runtime/common.rs:83-89 | after any schedule each desktop object has been given exactly the snapshots its node applied while writes worked, in log order |
| Desktops.DesktopsNeverGoBack | crates/cli/src/runtime/common.rs:83-89 | versions strictly increase along what each desktop object is given |
| Desktops.CopyReachesDesktops | crates/cli/src/runtime/common.rs:83-89 | once no snapshot is on its way and the largest version was produced once, the last snapshot on every other node's desktop object is that copy, if its writes worked |
| Lazy.LazyStore.Insert | crates/clipboard/src/lazy.rs:75-94 | a known hash changes nothing; otherwise the longest suffix of insertion order that fits beside the new entry stays, and the new entry goes last; keys, order and byte total stay exact and within the cap unless one entry is alone |
| Lazy.LazyStore.Get | crates/clipboard/src/lazy.rs:97-99 | finds exactly the stored entries |
| Lazy.LazyStore.Remove | crates/clipboard/src/lazy.rs:102-108 | takes out the entry of that hash and nothing else |
| Lazy.KeptIsLongestFit | crates/clipboard/src/lazy.rs:81-89 | eviction leaves the longest suffix that fits, or nothing |
| Lazy.SurvivesIffFits | crates/clipboard/src/lazy.rs:81-89 | an entry survives an insertion exactly when it and all younger entries fit under the cap with the newcomer |
| Lazy.InsertionsKeepNewestThatFit | crates/clipboard/src/lazy.rs:75-94 | after any sequence of insertions the store holds the newest entry and the longest run of older ones that fits beside it, of all that were ever entered |
| Lazy.StoreIsSuffix | crates/clipboard/src/lazy.rs:75-108 | with removals in between, nothing is evicted before an older entry |
| Lazy.HeldIffSpared | crates/clipboard/src/lazy.rs:75-108 | after any insertions and removals an entry is held if and only if some insertion entered it, and since then it was not removed and at every further insertion fitted together with the younger entries then present and the newcomer |
| Lazy.WithoutTakesOne | crates/clipboard/src/lazy.rs:102-108 | forgetting a hash removes one entry and its size, order of the rest unchanged |
| Lazy.ProduceImage | crates/clipboard/src/lazy.rs:128-145 | inline up to the threshold, else stored; resolving the item right away gives the bytes, except for a large image whose hash is taken by other bytes |
| Lazy.ServeFetch | crates/clipboard/src/lazy.rs:149-154 | inline bytes, or exactly what a valid store holds under the hash |
| Framing.Le32RoundTrip | crates/transport/src/connection.rs:98-109 | the four length bytes are the base-256 digits of the length, lowest first, and decode to it |
| Framing.Connection.WriteFramed | crates/transport/src/connection.rs:89-103 | appends the four length bytes and the payload, or refuses a payload above 64 MiB and writes nothing |
| Framing.Connection.ReadFramed | crates/transport/src/connection.rs:105-116 | the outcome depends only on the bytes, not on how they are split into segments |
| Framing.Connection.RecvFrame | crates/transport/src/connection.rs:80-83 | a frame, or the reading error, or a decoding error for a payload that does not decode |
| Framing.Connection.ReadLoop | crates/cli/src/runtime/client.rs:233-235 | looping until the first error of any kind collects the frames before it |
| Framing.ReadOneIs | crates/transport/src/connection.rs:105-116 | four bytes are read as a little-endian length: refused above 64 MiB, else the payload and what follows it, or the end of the stream |
| Framing.ReadAllIs | crates/transport/src/connection.rs:105-116 | on any stream the payloads read are frame by frame what it starts with, and what follows them fails as the error says |
| Framing.DecodedIs | crates/cli/src/runtime/client.rs:233-235 | the frames are the decoded payloads up to the first that does not decode, which is the error |
| Framing.OverlongStops | crates/transport/src/connection.rs:105-116 | a length above 64 MiB after any frames ends reading there with that length, whatever follows |
| Framing.ReadBackOne | crates/transport/src/connection.rs:89-116 | a written frame reads back as its payload and leaves what follows; the reader accepts every length the writer accepts |
| Framing.CutStreamReadsPrefix | crates/transport/src/connection.rs:105-116 | a stream cut anywhere yields exactly the frames that arrived whole, the most that fit in the cut, then the end, never a length error |
| Framing.StreamRoundTrip | crates/transport/src/connection.rs:89-116 | an uncut stream gives every payload back in order |
| Framing.ConcurrentSenders | crates/transport/src/connection.rs:97-103 | at every moment of every interleaving of locked writes and for every cut, the reader gets a prefix of the payloads in lock order, in which each sender's payloads keep their order |
| Framing.BlockedIffSent | crates/transport/src/connection.rs:97-103 | the senders are never blocked before everything sendable is sent |
| Fetch.ChunksPartition | crates/cli/src/runtime/server.rs:228-238 | ceil(len / size) pieces, all full but the last, none empty, joining up to the input |
| Fetch.ReplyShape | crates/cli/src/runtime/server.rs:219-239 | at least one frame, indices in order, one total, bodies at most one chunk long and joining up to the bytes |
| Fetch.ReplyAt | crates/cli/src/runtime/server.rs:219-239 | frame i of a reply carries bytes 262144 i onwards, its index and the frame count, both modulo 2^32 |
| Fetch.CastsAreLossless | crates/cli/src/runtime/server.rs:228-235 | the u32 casts are exact if and only if there are at most 2^32 - 1 chunks |
| Fetch.ChunksPassTheGuard | crates/cli/src/runtime/server.rs:214-217 | every chunk frame passes the frame limit for any header that leaves room for one chunk |
| Fetch.ReassemblesIff | crates/core/src/wire.rs:35-48 | a receiver that reads the total from the frames gets the bytes if and only if every chunk arrived and the count fits 32 bits, in any order, with repeats, among any other frames; before that it gets nothing |
| Fetch.CutStreamReceivesPrefix | crates/transport/src/connection.rs:73-116 | a stream of encoded frames cut anywhere decodes to exactly the frames that arrived whole, the most that fit |
| Fetch.StoreToReceiver | crates/core/src/wire.rs:35-54 | from the hub's lookup over reply, encoding, framing, an arbitrary cut, reading and decoding: the receiver never reassembles wrong bytes, and gets the stored ones exactly when all their chunks came through |
| Fetch.ReceiverLearnsTheStore | crates/core/src/wire.rs:35-54 | over the uncut stream the receiver gets a miss exactly when the hash is absent, and otherwise the stored bytes, up to the size limit |
| Fetch.AssumptionsCanBeMet | crates/core/src/wire.rs:35-54 | for every hash and store content there are a codec and a queue that meet all assumptions of the two rows above |
| Delivery.WireIsStream | crates/cli/src/runtime/server.rs:272-284 | over any schedule, what a spoke has read followed by what is on its wire is what was written to it |
| Delivery.AnswersAre | crates/cli/src/runtime/server.rs:307-317 | over any schedule, an answer to a hash is written to or queued for a spoke if and only if the hub read its request and the answer is in the reply to what the store holds |
| Delivery.FetchOverSchedule | crates/cli/src/runtime/server.rs:307-317 | after any schedule in which the hub object read a request, the bytes written to that connection, cut anywhere, never tell anything about the hash but what the object's store holds |
| Delivery.FetchCompletes | crates/cli/src/runtime/server.rs:307-317 | once the hub object's queue for the spoke is empty, those bytes tell a miss exactly when the hash is absent, and otherwise the stored bytes, up to the size limit |
| Delivery.InputArrives | crates/cli/src/runtime/server.rs:119-129 | after any schedule what an enabled spoke object has emitted, followed by the input on its wire and in its queue, is exactly what the hub captured, in order; a disabled spoke emits nothing |
| Fetch.ReplyIsFaithful | crates/cli/src/runtime/server.rs:307-317 | a single miss is sent exactly when the hash is absent; the reply alone reassembles to what was found if and only if its chunk count fits 32 bits |
| ScreenLayout.Layout.Connect | crates/input-router/src/layout.rs:65-68 | sets the slot, and the reciprocal slot on the edge that points the other way, and no other |
| ScreenLayout.OppositeFaces | crates/input-router/src/layout.rs:22-29 | the opposite edge is the one whose unit vector is the negated one, left (-1, 0), right (1, 0), top (0, -1), bottom (0, 1) |
| ScreenLayout.ConnectKeepsInvolution | crates/input-router/src/layout.rs:63-68 | a symmetric layout stays symmetric if and only if both slots are free or already paired together |
| ScreenLayout.BuiltLayoutsAreInvolutions | crates/input-router/src/layout.rs:22-29 | after any compatible sequence of connects, b lies across an edge of a if and only if a lies across the edge of b that points the other way |
| Modifiers.ModifierState.Update | crates/input-router/src/modifier.rs:30-52 | moves the bit of that modifier key only, and reports whether it changed |
| Modifiers.MaskIsSumOfHeld | crates/core/src/input.rs:74-82 | the mask as a number is the sum of 1, 2, 4, ... 128 over the held keys among usages 0xE0 to 0xE7 |
| Modifiers.UpdateMovesOneBit | crates/input-router/src/modifier.rs:30-52 | a key event sets or clears its own bit, every other key stays as it was |
| Modifiers.HeldIffLastPressed | crates/input-router/src/modifier.rs:1-7 | after any events a key is held exactly when it is one of the eight modifiers and its last event was a press |
| InputRouter.Router.OnMouseMove | crates/input-router/src/router.rs:64-118 | the object performs the step of the value-level router; once the cursor is away the motion is forwarded as it is |
| InputRouter.Router.OnKey | crates/input-router/src/router.rs:121-133 | the key's own bit moves and no other, then the event goes unaltered to the active node |
| InputRouter.Router.constructor | crates/input-router/src/router.rs:47-57 | the cursor starts here, in the middle of the screen, with no key held; sizes are taken modulo 2^32 |
| InputRouter.RunStaysHere | crates/input-router/src/router.rs:64-133 | while no stimulus takes the walking cursor over an edge with a neighbour, a run delivers every stimulus here, unaltered and in order |
| InputRouter.RunHandsOver | crates/input-router/src/router.rs:64-133 | if stimulus i is the first that does: the ones before it are delivered here, it becomes a Leave and an Enter with the keys then held, and every later one is sent to that neighbour, unaltered and in order |
| InputRouter.CrossedIsOutward | crates/input-router/src/router.rs:78-88 | the crossed edge points to where the cursor went, sideways before up and down, and there is none exactly on the screen |
| InputRouter.RunFrom | crates/input-router/src/router.rs:75-117 | the cursor is on the screen in every state of every run, whatever the deltas |
| InputRouter.NoOverflowIff | crates/input-router/src/router.rs:75-76 | no cursor position overflows if and only if the delta is at most i32::MAX - size + 1 |
| InputRouter.HandOffIff | crates/input-router/src/router.rs:78-117 | a hand-off happens, and to whom, exactly when the first violated edge in the order left, right, top, bottom has a neighbour, and recentres the cursor; otherwise the cursor moves and stops at the border |
| InputRouter.MoveKeepsShapeIff | crates/input-router/src/router.rs:90-116 | a pointer move keeps the trace shape if and only if it does not hand off to the same node |
| InputRouter.RunHasShapeIff | crates/input-router/src/router.rs:64-133 | a run emits locals, then at most one Leave and Enter, then only frames to that target, with the receiver's folded modifiers equal to the router's, if and only if no pointer step taken here handed the cursor to this very node |
| InputRouter.RunShape | crates/input-router/src/router.rs:64-133 | once that has happened the shape is lost for good |
| InputRouter.SelfNeighborLosesShape | crates/input-router/src/router.rs:90-116 | a layout and a single pointer step after which the node is told to leave for itself |
| InputRouter.RunHasShape | crates/input-router/src/router.rs:64-133 | over layouts without self-neighbours every run has the shape |
| InputRouter.MaskIsWhatIsHeld | crates/core/src/input.rs:74-82 | in every reachable state the mask has a bit exactly when that key's last event was a press |
| X11Capture.MaskIter | crates/pal-x11/src/capture.rs:328-346 | strictly increasing axes; an axis comes out with a value if and only if its binary digit in the mask words is a one and the value is the one at its rank among the ones |
| X11Capture.RowIsBinary | crates/pal-x11/src/capture.rs:333-340 | the 32 axis bits of each mask word are its binary digits, least significant first |
| X11Capture.DecodedIsRankSelect | crates/pal-x11/src/capture.rs:328-346 | an axis is reported with a value if and only if its bit is set and that is the value at its rank |
| X11Capture.MotionDeltas | crates/pal-x11/src/capture.rs:193-201 | dx and dy are the integral values announced by the two lowest digits of the first mask word, zero when absent |
| X11Capture.Capture.HandleMotion | crates/pal-x11/src/capture.rs:188-209 | one move event with those deltas unless both are zero |
| X11Capture.Capture.HandleKey | crates/pal-x11/src/capture.rs:216-245 | the key of the first keysym in the keycode's row is sent with the fold of all keys sent so far including itself; unknown keys change nothing |
| X11Capture.Capture.UpdateModifiers | crates/pal-x11/src/capture.rs:247-266 | the capture side moves the mask as the router does |
| X11Capture.Capture.HandleButton | crates/pal-x11/src/capture.rs:268-321 | exactly one event per button edge: 1, 2, 3, 8, 9 are named buttons, pressing 4 to 7 scrolls, all others are passed on by number modulo 256 |
| X11Emit.Emitter.EmitScroll | crates/pal-x11/src/emit.rs:127-146 | one click of button 4 or 5 per vertical unit, then of 6 or 7 per horizontal unit, by sign |
| X11Emit.ClicksTakeTurns | crates/pal-x11/src/emit.rs:127-146 | n clicks are n presses each followed by a release |
| X11Emit.ScrollIsConserved | crates/pal-x11/src/emit.rs:127-146 | what is clicked is captured as scroll steps summing to (dx, dy), with one wheel-button release per step and nothing else |
| X11Emit.CaptureAll | crates/pal-x11/src/capture.rs:182-187 | a capture object fed the edges sends exactly those events |
| X11Emit.ButtonRoundTripIff | crates/pal-x11/src/emit.rs:189-198 | which buttons are read back as themselves |
| Peers.HexRoundTrip | crates/transport/src/peer_store.rs:94-101 | hex text decodes to the bytes it encodes |
| Peers.HexEncodeAt | crates/transport/src/peer_store.rs:94-101 | two lower-case digits a byte, the high one first |
| Peers.HexDecodeIs | crates/transport/src/peer_store.rs:52-57 | decoding succeeds with these bytes if and only if the text spells them, two digits a byte in either case |
| Peers.CollectTakesLast | crates/transport/src/peer_store.rs:48-61 | reading records keeps, for every 32-byte key that some record spells, the last such record, and nothing else |
| Peers.CollectUndoesListing | crates/transport/src/peer_store.rs:44-66 | reading back the values of a consistent map, written in any order, gives the map |
| Peers.PeerStore.Open | crates/transport/src/peer_store.rs:44-66 | a missing file gives an empty store, records give their map, text that does not parse and a file that cannot be read give their errors; every entry's text decodes to its key |
| Peers.PeerStore.Flush | crates/transport/src/peer_store.rs:110-120 | after success, reading the file gives the map in memory |
| Peers.PeerStore.Insert | crates/transport/src/peer_store.rs:94-102 | the entry is added in memory, and after success the file reads back as memory |
| Peers.PeerStore.Remove | crates/transport/src/peer_store.rs:105-108 | the entry is gone in memory, and after success the file reads back as memory |
| Peers.OpenFlushOpen | crates/transport/src/peer_store.rs:44-66 | opening, flushing and opening again changes nothing |

## Left out

- Reconnects, replaced sessions and late joiners: the star's spokes are connected from the start and no frame is lost. A joiner gets no catch-up snapshot, and a finished session removes the map entry unconditionally (crates/cli/src/runtime/server.rs:332-334).
- Progress of delivery in time: only safety, termination of steps and absence of deadlock are shown.
- Restarting a node: the clock is not persisted.
- Version and byte-count overflow of 64-bit integers: versions and totals are mathematical integers.
- The OS clipboard's own behaviour, which of a snapshot's items it takes, and its polling watcher: copies are an unconstrained step, also those that a write to the OS clipboard may cause.
- TLS, identities, signatures, pairing codes and the handshake.
- The bytes of the postcard and TOML formats: a codec is a pair of functions, a peer file is a list of records or unparsable.
- Errors in the middle of a socket write: they appear as a stream cut at an arbitrary byte.
- Keymap tables, the Windows and macOS back ends, key and motion emission, failures of an emission, configuration, command line, logging and retry delays.
- Router.OnMouseMove: additions wrap as in a release build (as does the keycode subtraction of the capture side); `NoOverflowIff` says when a debug build does not panic. The clamp panics on a screen of width or height below one, so at least one pixel is required.
- ConnectKeepsInvolution: registered screens do not affect adjacency in the source and are not mentioned.
- Flush: what a failed write leaves in the file is arbitrary, so nothing is promised after a failure except that a failure before the write, such as a missing directory, leaves the file alone.
