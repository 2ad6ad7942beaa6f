# NBitcoin Node: a verified model of one peer connection

This project models one peer connection of NBitcoin's `Node` class and its
`NodeConnection` (`NBitcoin/Protocol/Node.cs`). It covers:

- the connection lifecycle: `NodeState`, the `State` setter and its
  notifications, `IsConnected`, `DisconnectAsync`/`Disconnect`, and the
  single-shot `Cleanup`;
- the outbound queue: `SendMessageAsync`, the completion each message
  carries, and the sending thread that writes messages and fails the
  leftovers when the connection ends;
- the receive side: `OnMessageReceived`, its duplicate-version gate and the
  listening thread;
- the filter chain that every outgoing payload and every incoming message
  passes through;
- both handshakes (`VersionHandshake` and `RespondToHandShake`) and
  `AssertState`;
- header synchronisation (`GetHeadersFromFork`, `SynchronizeChain`);
- block retrieval (`GetBlocks`), with its adaptive batch size.

Each thread is a sequence of atomic events, and each event is one method of
the `Nodes.Node` class. The caller decides which event happens next, so any
interleaving of the two threads with the API calls can be played. The network
is an input. The messages a listener would receive are a sequence of payloads
(`replies`, `responses`, `arrivals`). Running out of that sequence is a
cancelled wait.

Modules, one per file:

| module | file | contents |
|---|---|---|
| `Payloads` | `payloads.dfy` | the payloads and values the core exchanges (hash, header, version message, reject code) |
| `NodeStates` | `node_state.dfy` | `NodeState`, `IsConnected` and the notifications of a state transition |
| `Filters` | `filters.dfy` | the `FireFilters` chain, as a function of each filter's choice |
| `Handshake` | `handshake.dfy` | the pure handshake checks: the peer-version verdict, the 64-bit service mask test, and what the handshake listeners buffer and read |
| `Nodes` | `node.dfy` | the `Node` class: lifecycle fields, outbound queue, sending and listening thread events, handshakes, `AssertState` |
| `ChainSync` | `chain_sync.dfy` | `GetHeadersFromFork` and `SynchronizeChain`, each a method specified by a recursive function |
| `BlockRetrieval` | `block_retrieval.dfy` | `GetBlocks`: batches, the drain of one batch, the size update rule |

The class keeps these invariants:

- `QueueValid`:
  - every message on the queue, or in the sending thread's hands, has a distinct completion that is still pending;
  - every other completion that was ever queued is settled;
  - every completion id was allocated.
- `LifecycleValid`:
  - a stopped thread has run `Cleanup`;
  - disconnection and cleanup both request cancellation;
  - the disconnected signal is set only by `Cleanup`.

Every event method keeps both invariants. Each one states what it does to the
fields it may write. The handshakes state it through snapshot values:
- `Box()`: the outbound queue and its completions;
- `Life()`: the state, notifications, disconnect flags and reason;
- `Peer()`: the negotiated version.

Every event method also keeps the state order `NodeStates.Advances`: a closed
node stays closed, and a disconnecting node can only close.

## Model

| member | source | states |
|---|---|---|
| NodeStates.IsConnected | NBitcoin/Protocol/Node.cs:811-817 | A node is connected exactly when it is neither Failed, Offline nor Disconnecting. |
| NodeStates.NotificationRules | NBitcoin/Protocol/Node.cs:282-296 | Setting the same state fires nothing. Otherwise StateChanged(previous) fires first and only first. Disconnected fires exactly when the state changes to Failed or Offline. |
| NodeStates.AdvancesIsOrder | NBitcoin/Protocol/Node.cs:233-296 | The order of states that the lifecycle follows (a closed node stays closed, a disconnecting node can only close, a handshaken node never goes back to Connected) is reflexive, transitive and antisymmetric. |
| NodeStates.NoRevival | NBitcoin/Protocol/Node.cs:811-817 | Along that order, a node that is not connected never becomes connected again, and a Failed or Offline node keeps its state. |
| NodeStates.AsWrittenHandshakeRevives | NBitcoin/Protocol/Node.cs:920 | As written, the end of a handshake sets HandShaked on an Offline node, which is connected again. That step breaks the order, from Offline and from Disconnecting alike. |
| NodeStates.HandshakeEnd | NBitcoin/Protocol/Node.cs:920 | The guarded end of a handshake follows the order. The result is HandShaked exactly when the node is still connected. A node that is not connected keeps its state. |
| Filters.ChainRules | NBitcoin/Protocol/Node.cs:372-403 | Filters are invoked one after another, in collection order. The terminal action runs if and only if every filter called its continuation. Otherwise the chain stops at the first filter that did not. An exception is swallowed exactly when that filter threw, so nothing escapes the chain. |
| Filters.TransparentFilter | NBitcoin/Protocol/Node.cs:372-403 | Adding a filter that always calls its continuation does not change whether the terminal action runs. |
| Handshake.ServicesTestMeansCovers | NBitcoin/Protocol/Node.cs:912 | The masked test `(required & services) == required` holds if and only if every required service bit is set in the peer's services. |
| Handshake.CheckPeerVersion | NBitcoin/Protocol/Node.cs:898-916 | The three refusals, each as an if-and-only-if in source order: outdated protocol version; below the requirement's minimum version; missing a required service. Each later refusal applies only after the earlier checks passed. |
| Handshake.AcceptedPeers | NBitcoin/Protocol/Node.cs:898-918 | A peer is accepted if and only if its version meets the protocol minimum and the optional required minimum, and it offers every required service. |
| Handshake.DefaultRequirementOnlyChecksVersion | NBitcoin/Protocol/Node.cs:878-916 | With a null requirement, which becomes `new NodeRequirement()`, only the protocol minimum can refuse a peer. |
| Handshake.AnswersDuplicateVersion | NBitcoin/Protocol/Node.cs:331-339 | A reject is sent exactly for a version message received while HandShaked with a negotiated version of at least 70002. This can only happen on a connected node. |
| Handshake.Where | NBitcoin/Protocol/Node.cs:879-882 | A filtered listener buffers exactly the arrivals that pass the filter. It is empty exactly when none pass. A first arrival that passes is buffered first. |
| Handshake.WhereAppend | NBitcoin/Protocol/Node.cs:879-882 | Filtering distributes over concatenating the arrivals. |
| Handshake.ReadVersionHandshake | NBitcoin/Protocol/Node.cs:886-919 | There is no reply exactly when no version, reject or verack arrived. A refused peer failed the check named in the refusal. A peer that got as far as the verack wait passed every check. A completed read saw a verack, and the peer's version is one that arrived. |
| Handshake.BufferedAfterNoise | NBitcoin/Protocol/Node.cs:879-886 | Unrelated traffic before the peer's version leaves that version first in the handshake listener. |
| Handshake.HandshakeIgnoresOtherTraffic | NBitcoin/Protocol/Node.cs:879-919 | Any traffic other than version, reject and verack that comes before the peer's version does not change the handshake's outcome. |
| Handshake.HandshakeSends | NBitcoin/Protocol/Node.cs:918-927 | After its own version, the initiator sends a verack if and only if the peer passed the checks, and this comes first. It sends an addr if and only if the handshake completed and the node advertises a routable address. |
| Handshake.VerAckOnlyWhenAccepted | NBitcoin/Protocol/Node.cs:898-918 | A verack is sent only to a peer whose version arrived and meets every requirement. |
| Handshake.ReadResponderHandshake | NBitcoin/Protocol/Node.cs:942-949 | The responder has no answer exactly when no verack or reject arrived. A reject or verack it acts on is one that arrived. |
| Handshake.ResponderTakesFirstAnswer | NBitcoin/Protocol/Node.cs:942-951 | The responder acts on the first verack or reject, whatever arrives before or after it. |
| Nodes.AllocateKeepsQueue | NBitcoin/Protocol/Node.cs:753-758 | A fresh completion is never one already allocated or queued. Allocating it keeps the queue invariant. |
| Nodes.EnqueueKeepsQueue | NBitcoin/Protocol/Node.cs:760-768 | Queuing a pending completion that was never queued keeps the completions on the queue distinct and pending. |
| Nodes.TakeKeepsQueue | NBitcoin/Protocol/Node.cs:134-136 | Taking the head of the queue moves that message into the sending thread's hands. The set of in-flight completions is unchanged. |
| Nodes.WrittenKeepsQueue | NBitcoin/Protocol/Node.cs:155-159 | Settling the written message as succeeded keeps the queue invariant. |
| Nodes.DrainKeepsQueue | NBitcoin/Protocol/Node.cs:171-186 | Failing every in-flight completion leaves no pending completion among those ever queued. |
| Nodes.HandshakeDoneOnlyWhenAccepted | NBitcoin/Protocol/Node.cs:886-920 | VersionHandshake completes only after both the peer's version and a verack arrived, and the version meets every requirement. A refusal names the check that failed. |
| Nodes.Handshaken | NBitcoin/Protocol/Node.cs:920 | After a passed handshake the lifecycle follows the state order. It is HandShaked exactly when the node was still connected, and it is unchanged otherwise. The disconnect flags and reason are never touched. |
| Nodes.Node.constructor | NBitcoin/Protocol/Node.cs:575-605 | An outbound node whose socket connected starts Connected. It fires StateChanged(Offline), has an empty queue and no disconnect reason, and both threads are running. |
| Nodes.Node.SetState | NBitcoin/Protocol/Node.cs:282-296 | The new state is stored, and exactly the notifications of the transition are fired (NotificationRules). |
| Nodes.Node.NoListeningThread | NBitcoin/Protocol/Node.cs:970-974 | It fails, with the deadlock message, if and only if the caller is the listening thread. |
| Nodes.Node.DisconnectAsync | NBitcoin/Protocol/Node.cs:979-997 | Only the first call on a connected node acts. It moves to Disconnecting (one StateChanged), requests cancellation, and records the reason unless one is already recorded. Every other call changes nothing. |
| Nodes.Node.Disconnect | NBitcoin/Protocol/Node.cs:963-968 | Disconnect does what DisconnectAsync does, then fails if and only if it is called on the listening thread. |
| Nodes.Node.Cleanup | NBitcoin/Protocol/Node.cs:233-265 | It acts at most once; later calls change nothing. If nobody requested cancellation, the state becomes Failed with the unexpected-exception reason. Otherwise it becomes Offline unless it was already Failed. Cancellation, socket close and the disconnected signal happen in every case, and Detach is tried on every behavior. |
| Nodes.Node.DetachBehaviors | NBitcoin/Protocol/Node.cs:254-264 | Detach is called on every behavior in collection order. Behaviors that throw are logged and do not stop the loop. |
| Nodes.Node.SendMessageAsync | NBitcoin/Protocol/Node.cs:749-771 | A fresh completion is created and the queue invariant is kept. On a node that is not connected the completion fails at once and nothing is queued. Otherwise it is pending, and the message is queued at the end exactly when the sending filter chain reaches its terminal action (`Posted`). |
| Nodes.Node.SenderTake | NBitcoin/Protocol/Node.cs:134-136 | The sending thread takes the head of the queue, in FIFO order. Nothing else about the outbound queue changes. |
| Nodes.Node.SenderWriteDone | NBitcoin/Protocol/Node.cs:153-169 | A completed write settles the message as succeeded. If cancellation was requested, the thread leaves still holding the message. If the send threw, the thread leaves with that exception. |
| Nodes.Node.FailAll | NBitcoin/Protocol/Node.cs:174-185 | Exactly the captured messages' completions fail with "The peer has been disconnected". All others are untouched. |
| Nodes.Node.DrainQueue | NBitcoin/Protocol/Node.cs:171-186 | The held message is put back on the queue, every in-flight completion fails, and the queue is emptied. Afterwards no completion that was ever queued is pending. |
| Nodes.Node.SenderDrain | NBitcoin/Protocol/Node.cs:163-186 | A sending thread that leaves its loop drains the queue (as DrainQueue) and keeps the exception it caught. |
| Nodes.Node.SenderStop | NBitcoin/Protocol/Node.cs:187-188 | The stopped sending thread runs Cleanup with the exception it caught. |
| Nodes.Node.AnswerDuplicateVersion | NBitcoin/Protocol/Node.cs:331-339 | A DUPLICATE reject is sent if and only if the duplicate-version gate fires. It goes through SendMessageAsync on a connected node, with everything that implies for the queue. Otherwise the outbound side is unchanged. |
| Nodes.Node.PassToListeners | NBitcoin/Protocol/Node.cs:341-362 | An incoming message is delivered exactly when the receiving filter chain reaches its terminal action. |
| Nodes.Node.OnMessageReceived | NBitcoin/Protocol/Node.cs:329-363 | A DUPLICATE reject is posted to the outbound queue if and only if the duplicate-version gate fires, whatever the filters do. The message is delivered if and only if the receiving chain reaches its terminal action, whatever the gate decided. |
| Nodes.Node.ReceiverDeliver | NBitcoin/Protocol/Node.cs:201-215 | A running, uncancelled listening thread hands each message to OnMessageReceived. The reject it may post and the delivery are the same as OnMessageReceived's. |
| Nodes.Node.ReceiverStop | NBitcoin/Protocol/Node.cs:218-226 | A listening thread that stops, on cancellation or an exception, runs Cleanup with that exception. |
| Nodes.Node.Send | NBitcoin/Protocol/Node.cs:885 | A handshake send is a SendMessageAsync whose task is ignored. Its effect on the queue and the completions is that of `Posted`, and the payload is recorded as requested. |
| Nodes.Node.RecordPeerVersion | NBitcoin/Protocol/Node.cs:891-893 | The peer's version message is stored, and the negotiated version becomes the peer's. |
| Nodes.Node.EndHandshake | NBitcoin/Protocol/Node.cs:920 | The corrected end of a handshake: the lifecycle becomes `Handshaken` of the previous one. A node that closed or is disconnecting meanwhile keeps its state. |
| Nodes.Node.CompleteHandshake | NBitcoin/Protocol/Node.cs:918-927 | A verack is posted, then the handshake ends as `Handshaken` says, then an addr is posted when the node advertises. Nothing else changes. |
| Nodes.Node.RefusePeer | NBitcoin/Protocol/Node.cs:891-916 | A refused peer's version is still stored. The node then disconnects it with the refusal's reason, exactly as `Disconnects` says for DisconnectAsync, and the state follows the order. |
| Nodes.Node.AcceptWithoutVerAck | NBitcoin/Protocol/Node.cs:891-919 | An accepted peer whose verack never arrives: its version is stored and exactly one verack is posted. The lifecycle is not changed. |
| Nodes.Node.ActOnAcceptance | NBitcoin/Protocol/Node.cs:891-927 | For a peer that was not refused, the node posts exactly what HandshakeSends lists, in order. It records the peer's version when one arrived (`Records`). The lifecycle changes only when the handshake completes, and then as `Handshaken` says (`Reacts`). |
| Nodes.Node.ActOnVersionRead | NBitcoin/Protocol/Node.cs:886-927 | The outcome of each kind of read: a reject, a failed cast, a cancelled wait, a refusal or completion. For each it states the payloads posted, the peer version recorded, and the lifecycle change: a refusal is exactly a DisconnectAsync with its reason, a completion is `Handshaken`, and nothing else changes. |
| Nodes.Node.ExchangeVersions | NBitcoin/Protocol/Node.cs:885-927 | The node's own version is posted first, then ActOnVersionRead's sends. The result, the negotiation and the lifecycle are those of ActOnVersionRead. |
| Nodes.Node.VersionHandshake | NBitcoin/Protocol/Node.cs:876-930 | On the listening thread it fails with the deadlock message (CreateListener) and nothing it may write changes. Otherwise it runs the version exchange against the given requirement, where null means the default, with ExchangeVersions's sends, negotiation and lifecycle effects. Both invariants and the state order are kept. |
| Nodes.Node.AnswerResponder | NBitcoin/Protocol/Node.cs:945-951 | For each answer the responder can read, the result, the payloads posted (its version, then a verack only on a verack) and the lifecycle (`Handshaken` only on a verack, unchanged otherwise). |
| Nodes.Node.RespondToHandShake | NBitcoin/Protocol/Node.cs:938-954 | On the listening thread it fails (CreateListener) and nothing it may write changes. Otherwise the node posts its version and acts on the first verack or reject. A reject is a ProtocolException carrying its code and reason. A verack is answered with a posted verack, and the lifecycle becomes `Handshaken`. |
| Nodes.Node.AssertState | NBitcoin/Protocol/Node.cs:1214-1220 | It succeeds only in the needed state. A Connected node asked to be HandShaked first runs VersionHandshake with the default requirement, with that handshake's sends and effects, and then succeeds if and only if the handshake completed. Any other call changes nothing and succeeds exactly when the state is the needed one. |
| ChainSync.ResponseLinks | NBitcoin/Protocol/Node.cs:1069-1084 | The blocks yielded from one headers message extend the tip one at a time and end at the new tip. The message was "ours" if and only if something was yielded. |
| ChainSync.ResponseStops | NBitcoin/Protocol/Node.cs:1074-1080 | A stop happens exactly at the first yielded block whose hash is `hashStop`, and that block is the last one yielded. |
| ChainSync.TipEchoesSkipped | NBitcoin/Protocol/Node.cs:1071-1078 | Headers equal to the tip are skipped, however many there are. The first header on top of the tip is the first block yielded. |
| ChainSync.ForeignHeaderEndsResponse | NBitcoin/Protocol/Node.cs:1082-1083 | The first header that is neither the tip nor on top of it ends the message with nothing yielded. |
| ChainSync.ProcessHeaders | NBitcoin/Protocol/Node.cs:1069-1084 | The foreach over one message computes exactly the recursive specification, whose meaning ResponseLinks and ResponseStops state. |
| ChainSync.ForkLinks | NBitcoin/Protocol/Node.cs:1039-1087 | Across all messages, every yielded block sits on the one before it, the first on the starting tip. The height grows by one per block. A sequence that ends at the stop ends at `hashStop`. |
| ChainSync.ForkStopsLast | NBitcoin/Protocol/Node.cs:1039-1087 | No block before the last one yielded has the hash `hashStop`. When the last one does, the fork ended at the stop. |
| ChainSync.GetHeadersFromFork | NBitcoin/Protocol/Node.cs:1039-1087 | The nested loops yield exactly the specification's blocks. They send one GetHeaders from the starting tip's locator base and one more per message that was ours, and end the same way: at the stop, at the two special answers, or cancelled. |
| ChainSync.TipCheckNeverFires | NBitcoin/Protocol/Node.cs:1106-1110 | The last header of a non-empty fork is always higher than the old tip, so "No tip should have been recieved older" is never thrown. |
| ChainSync.AllValid | NBitcoin/Protocol/Node.cs:1111-1115 | The foreach over the headers finds them all valid if and only if every header passes validation. |
| ChainSync.SynchronizeChain | NBitcoin/Protocol/Node.cs:1100-1119 | It returns the fork's headers, which extend the old tip. A cancelled wait is rethrown. For an untrusted peer it is rejected with the proof-of-work message if and only if some header fails validation. The tip moves only on success, to the last header, and for an untrusted peer only upward. |
| BlockRetrieval.NextBatchSize | NBitcoin/Protocol/Node.cs:1192-1197 | The batch size after any batch lies in [10, 10000]. |
| BlockRetrieval.BatchSizeAdapts | NBitcoin/Protocol/Node.cs:1192-1197 | From a size in range, an uncongested batch (peak backlog below 10) doubles the size up to 10000. A congested one halves it down to 10. |
| BlockRetrieval.UncongestedGrowth | NBitcoin/Protocol/Node.cs:1165-1197 | With no congestion, the size after k batches is min(10000, 70 * 2^k). |
| BlockRetrieval.UncongestedSizes | NBitcoin/Protocol/Node.cs:1165-1197 | Any batch sizes that follow the update rule from 70, with no congested batch before the last one, are min(10000, 70 * 2^k). |
| BlockRetrieval.DrainFacts | NBitcoin/Protocol/Node.cs:1182-1191 | The blocks a batch yields are a prefix of its request, in order, and each one arrived. The batch completes if and only if every requested block was yielded, and it stays incomplete only when the wait is cancelled. The peak is the largest listener backlog seen. |
| BlockRetrieval.FirstArrival | NBitcoin/Protocol/Node.cs:1184-1188 | The position of the first arrival of a hash from a given point: that arrival carries the hash, and no arrival in between does. If the hash never arrives, the position is the end. |
| BlockRetrieval.Matches | NBitcoin/Protocol/Node.cs:1182-1191 | The positions at which the requested hashes arrive, each the first arrival of its hash after the one before. They cover a prefix of the request and strictly increase. |
| BlockRetrieval.DrainFindsFirstArrivals | NBitcoin/Protocol/Node.cs:1182-1191 | The drain yields exactly as many blocks as have matching arrivals, each taken at its hash's first arrival after the previous one. Every block in between is discarded. The batch completes exactly when every requested hash was found. It then resumes just after the last match, and otherwise it has read every arrival. |
| BlockRetrieval.FaithfulPeerCompletes | NBitcoin/Protocol/Node.cs:1182-1191 | A peer that sends exactly the requested blocks, in order, completes the batch and nothing is discarded. |
| BlockRetrieval.DrainBatch | NBitcoin/Protocol/Node.cs:1178-1191 | The while loop over one batch computes the drain specification. It completes if and only if it yielded the whole batch. |
| BlockRetrieval.FetchBatch | NBitcoin/Protocol/Node.cs:1169-1191 | The batch is the next slice of the needed hashes, of the current size or shorter at the end. What it yields, its peak backlog, where it resumes and whether it completed are exactly those of the drain of that batch from the given arrival. It completes if and only if it yielded the whole batch, and when it does not it has read every arrival. A faithful peer completes it. |
| BlockRetrieval.RoundStep | NBitcoin/Protocol/Node.cs:1169-1197 | A round that completes its batch extends the yielded prefix and updates the size by the rule. A round that does not complete ends the retrieval with the partial batch. |
| BlockRetrieval.GetBlocks | NBitcoin/Protocol/Node.cs:1161-1200 | Blocks come back strictly in the requested order, as a prefix of the needed hashes. The batches are consecutive slices cut at sizes 70, then each by the update rule. Each completed batch is the whole drain of its slice from where the previous one stopped, with the recorded peak backlog. An incomplete last batch yields the drain's prefix after reading every arrival. A completed retrieval returns every needed block, and for a peer that sends them in order it always completes. |

## Left out

- Sockets, message framing and serialization are not modelled. A message is a `Payload` value, and GetHash, locators and NodeServices are reduced to the fields the core compares.
- Real threads are not modelled. Interlocked, volatile fields and the blocking collection are atomic events whose order the caller picks, so thread safety beyond those interleavings is not verified.
- Disconnect's `_Connection.Disconnected.WaitOne()` (Node.cs:967) is not modelled, since waiting on the other thread has no counterpart in an event model.
- Timeouts are not modelled. The one-minute GetHeaders timeout and the re-request after it (Node.cs:1052-1053, 1059-1063) are left out because clocks are outside the model. A header wait that runs out of input is the cancelled wait.
- NodeListener is not part of this model. `ReceivePayload<T>` is taken to deliver the first buffered message of type `T` and to skip messages of other types, and `ReceiveMessage` to deliver the first buffered message.
- The `Partition` extension is not part of this model. It is taken to read the batch size once per batch, when that batch is cut.
- GetMempool and GetMempoolTransactions are not modelled; they are outside the modelled core.
- The constructors are modelled only for an outbound socket that connected. The socket setup, the failed or cancelled connect branches (Node.cs:611-633), the inbound constructor and the Connect overloads are left out because they are I/O.
- Ping/pong behaviors, LastSeen, ConnectedAt, tracing and the performance counters are left out; they are bookkeeping that no modelled decision reads.
- The external-address warning (Node.cs:894-897) is left out; it only logs.
- The `AssertState(HandShaked)` at the start of GetHeadersFromFork, SynchronizeChain and GetBlocks, and their CreateListener, are left out of those members. The same checks are modelled separately by `Nodes.Node.AssertState` and `Nodes.Node.NoListeningThread`.
- Whether the node's own address is routable is an input (`routable`). `IsRoutable` is not modelled.
- Header proof-of-work validation is a parameter (`validate`). NBitcoin's `Validate(Network)` is not modelled.
- `ProtocolVersion.MIN_PEER_PROTO_VERSION` is a parameter (`minPeerVersion`), and the network's genesis hash is a parameter (`genesis`).
- GetLocator is reduced to the block it starts from (`AwaitedBase`): the tip's predecessor, or the tip at genesis.
- The GetBlocks wrappers over `ChainedBlock`s and over a hash stop only map their arguments to hashes, so they are not modelled separately.
- The null-payload `ArgumentNullException` of SendMessageAsync (Node.cs:751-752) is left out, since a `Payload` value is never null.
- Each behavior is modelled as an id plus whether its Detach throws. The behaviors themselves are not part of this model.
- Nodes.Node.SenderDrain and Nodes.Node.SenderStop are two events for what Node.cs:171-188 does on one thread. The queue reset comes first and Cleanup second, and another event may run between them.
- ChainSync.GetHeadersFromFork: the requests it records are the locator bases only; hashStop is the same for every request.
- ChainSync.SynchronizeChain: `chain.SetTip` is modelled as the returned new tip, not as an update to a shared chain object.
- Filters.FireFilters / Filters.ChainRules: each filter makes one synchronous choice, either to call its continuation once or not, or to throw before calling it. A filter that keeps the continuation and calls it later or twice, or that calls it and then throws (Node.cs:361-403), is not modelled.
- BlockRetrieval.GetBlocks: the `starts` out-parameter, the arrival at which each batch's drain began, is ghost. It exists only to state how the batches read the arrivals.
- Nodes.Node.EndHandshake: this is the corrected handshake end, which leaves a node that closed meanwhile in its state (see Findings). The unguarded assignment of Node.cs:920 and 951 is modelled only by NodeStates.HandshakeEndAsWritten.

## Findings

| source | as written | input that shows it | evidently intended | confidence | as-written member | corrected member |
|---|---|---|---|---|---|---|
| NBitcoin/Protocol/Node.cs:920 | At the end of a handshake (here, and again at line 951 for the responder), `State = NodeState.HandShaked` is set whatever the state is by then. | The listening thread stops, or another thread calls DisconnectAsync, after the peer's version and verack are buffered and before line 920 runs. Cleanup has already set Offline (or DisconnectAsync Disconnecting), and line 920 then sets HandShaked. The node counts as connected again, and SendMessageAsync queues messages that no sending thread will write. | A node that is disconnecting or closed keeps its state; only a connected node becomes HandShaked. | not executed | NodeStates.AsWrittenHandshakeRevives | NodeStates.HandshakeEnd |
