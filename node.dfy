/** One peer connection (Node together with its NodeConnection): the
    lifecycle fields, the outbound queue and its completions, the filter chain,
    the single-shot cleanup and the handshakes. The sending thread and the
    listening thread are modelled as sequences of atomic events, one method per
    event; which event happens next is up to the caller. */
module Nodes {
  import opened Payloads
  import opened NodeStates
  import opened Filters
  import opened Handshake

  /** What the completion source of an outgoing message reports to its sender. */
  datatype Completion =
    | Pending
    | Succeeded
      /** faulted with an OperationCanceledException "The peer has been disconnected" */
    | PeerDisconnected

  /** A queued message: the payload to write and the id of its completion. */
  datatype SentMessage = SentMessage(payload: Payload, completion: nat)

  /** How a socket write that was waited for ended when the connection was
      not cancelled meanwhile: EndSend returned, or the send threw. */
  datatype WriteOutcome = Written | WriteFault(fault: Fault)

  /** Where the sending thread is: blocked on the queue, waiting for a write
      to finish, leaving its loop (with the exception it caught, if any),
      past the drain of the queue and about to run Cleanup, or done. */
  datatype SenderPc = AwaitingItem | AwaitingWrite | Exiting(fault: Option<Fault>) | Drained(fault: Option<Fault>) | Stopped

  /** A behavior attached to the node: an identity, and whether its Detach
      throws. */
  datatype Behavior = Behavior(id: nat, detachThrows: bool)

  /** The exceptions this part of the node raises to its caller. */
  datatype NodeError =
    | InvalidOperation(message: string)
    | InvalidState(needed: NodeState, current: NodeState)
    | HandshakeRejected(reason: string)
    | VersionRejected(code: RejectCode, reason: string)
    | OperationCanceled
    | InvalidCast

  datatype Outcome = Ok | Err(error: NodeError)

  /** How a handshake call ended: it completed, it disconnected a peer that
      failed a check (the call itself returns normally), or it threw. */
  datatype HandshakeResult = HandShakeDone | PeerRefused(why: Refusal) | HandshakeFailed(error: NodeError)

  const UnexpectedException := "Unexpected exception while connecting to socket"
  const DeadlockMessage := "Using Disconnect on this thread would result in a deadlock, use DisconnectAsync instead"

  /** The completion ids of a run of messages. */
  function Ids(ms: seq<SentMessage>): (r: set<nat>)
    ensures forall m | m in ms :: m.completion in r
  {
    set m | m in ms :: m.completion
  }

  /** The behaviors' ids in collection order. */
  function BehaviorIds(bs: seq<Behavior>): (r: seq<nat>)
    ensures |r| == |bs|
  {
    if bs == [] then [] else BehaviorIds(bs[..|bs| - 1]) + [bs[|bs| - 1].id]
  }

  /** The ids of the behaviors whose Detach throws, in collection order. */
  function ThrowingIds(bs: seq<Behavior>): (r: seq<nat>)
    ensures |r| <= |bs|
  {
    if bs == [] then []
    else ThrowingIds(bs[..|bs| - 1]) + (if bs[|bs| - 1].detachThrows then [bs[|bs| - 1].id] else [])
  }

  /** The completions held by the queue and by the sending thread. */
  function InFlight(queue: seq<SentMessage>, processing: Option<SentMessage>): (r: set<nat>)
    ensures Ids(queue) <= r
    ensures processing.Some? ==> processing.value.completion in r
  {
    Ids(queue) + (if processing.Some? then {processing.value.completion} else {})
  }

  /** The outbound queue: queued messages are distinct, were allocated and
      are still pending, and every allocated id is below the next one. */
  ghost predicate QueueInvariant(queue: seq<SentMessage>, processing: Option<SentMessage>,
                                 completions: map<nat, Completion>, enqueued: set<nat>,
                                 nextCompletion: nat)
  {
    && (forall i, j | 0 <= i < j < |queue| :: queue[i].completion != queue[j].completion)
    && (processing.Some? ==> processing.value.completion !in Ids(queue))
    && InFlight(queue, processing) <= enqueued
    && enqueued <= completions.Keys
    && (forall id | id in completions :: id < nextCompletion)
    && (forall id | id in enqueued :: completions[id] == Pending <==> id in InFlight(queue, processing))
  }

  /** The sending thread holds a message while it writes it, and holds none
      while it waits for the queue or once it has stopped. */
  predicate SenderHolds(pc: SenderPc, processing: Option<SentMessage>) {
    && (pc == AwaitingWrite ==> processing.Some?)
    && (pc == AwaitingItem || pc.Drained? || pc == Stopped ==> processing.None?)
  }

  /** Allocating a fresh completion keeps the queue invariant. */
  lemma AllocateKeepsQueue(queue: seq<SentMessage>, processing: Option<SentMessage>,
                          completions: map<nat, Completion>, enqueued: set<nat>,
                          nextCompletion: nat, c: Completion)
    requires QueueInvariant(queue, processing, completions, enqueued, nextCompletion)
    ensures nextCompletion !in completions && nextCompletion !in enqueued
    ensures QueueInvariant(queue, processing, completions[nextCompletion := c], enqueued, nextCompletion + 1)
  {
  }

  /** Appending a pending completion that was never queued keeps the queue
      invariant. */
  lemma EnqueueKeepsQueue(queue: seq<SentMessage>, processing: Option<SentMessage>,
                          completions: map<nat, Completion>, enqueued: set<nat>,
                          nextCompletion: nat, m: SentMessage)
    requires QueueInvariant(queue, processing, completions, enqueued, nextCompletion)
    requires m.completion in completions && completions[m.completion] == Pending && m.completion !in enqueued
    ensures QueueInvariant(queue + [m], processing, completions, enqueued + {m.completion}, nextCompletion)
  {
    assert Ids(queue + [m]) == Ids(queue) + {m.completion} by {
      assert forall x | x in queue + [m] :: x in queue || x == m;
    }
    forall i | 0 <= i < |queue| ensures queue[i].completion != m.completion {
      assert queue[i].completion in Ids(queue);
    }
  }

  lemma IdsAppend(queue: seq<SentMessage>, m: SentMessage)
    ensures Ids(queue + [m]) == Ids(queue) + {m.completion}
  {
    assert forall x | x in queue + [m] :: x in queue || x == m;
  }

  lemma IdsCons(queue: seq<SentMessage>)
    requires queue != []
    ensures Ids(queue) == Ids(queue[1..]) + {queue[0].completion}
  {
    assert queue == [queue[0]] + queue[1..];
    assert forall x | x in queue :: x == queue[0] || x in queue[1..];
  }

  /** The sending thread taking the head of the queue keeps the invariant:
      the message moves from the queue to the thread's hands. */
  lemma TakeKeepsQueue(queue: seq<SentMessage>, completions: map<nat, Completion>, enqueued: set<nat>,
                       nextCompletion: nat)
    requires QueueInvariant(queue, None, completions, enqueued, nextCompletion)
    requires queue != []
    ensures QueueInvariant(queue[1..], Some(queue[0]), completions, enqueued, nextCompletion)
    ensures InFlight(queue[1..], Some(queue[0])) == InFlight(queue, None)
  {
    IdsCons(queue);
    assert queue[0].completion !in Ids(queue[1..]) by {
      forall x | x in queue[1..] ensures x.completion != queue[0].completion {
        var j :| 0 <= j < |queue[1..]| && queue[1..][j] == x;
        assert queue[j + 1] == x;
      }
    }
  }

  /** A message whose write completed leaves the thread's hands as succeeded. */
  lemma WrittenKeepsQueue(queue: seq<SentMessage>, m: SentMessage, completions: map<nat, Completion>,
                          enqueued: set<nat>, nextCompletion: nat)
    requires QueueInvariant(queue, Some(m), completions, enqueued, nextCompletion)
    ensures QueueInvariant(queue, None, completions[m.completion := Succeeded], enqueued, nextCompletion)
  {
  }

  /** Failing every message still held keeps the invariant with an empty
      queue, and then no queued completion is still pending. */
  lemma DrainKeepsQueue(queue: seq<SentMessage>, processing: Option<SentMessage>,
                        completions: map<nat, Completion>, drained: map<nat, Completion>,
                        enqueued: set<nat>, nextCompletion: nat)
    requires QueueInvariant(queue, processing, completions, enqueued, nextCompletion)
    requires drained.Keys == completions.Keys
    requires forall id | id in drained ::
      drained[id] == if id in InFlight(queue, processing) then PeerDisconnected else completions[id]
    ensures QueueInvariant([], None, drained, enqueued, nextCompletion)
    ensures forall id | id in enqueued :: drained[id] != Pending
  {
    assert Ids([]) == {};
  }

  /** The outbound side of a node as one value: the queued messages, every
      completion created, the next completion id and the ids ever queued. */
  datatype Outbox = Outbox(messages: seq<SentMessage>, completions: map<nat, Completion>, nextCompletion: nat,
                           enqueued: set<nat>)

  /** The connection's lifecycle as one value: the state, the notifications
      raised so far, and the disconnection flags and reason. */
  datatype Lifecycle = Lifecycle(state: NodeState, notifications: seq<Notification>, disconnecting: bool,
                                 cancelRequested: bool, disconnectReason: Option<DisconnectReason>)

  /** What the handshake negotiated: the peer's version message and the
      protocol version in use. */
  datatype Negotiation = Negotiation(peerVersion: Option<VersionPayload>, version: nat)

  /** One DisconnectAsync: on a connected node nobody is disconnecting yet,
      the state becomes Disconnecting, the flags are raised, cancellation is
      requested and the reason is recorded unless one is already recorded;
      otherwise nothing changes. */
  predicate Disconnects(before: Lifecycle, after: Lifecycle, reason: Option<string>, exception: Option<Fault>) {
    if IsConnected(before.state) && !before.disconnecting then
      after == Lifecycle(Disconnecting, before.notifications + [StateChanged(before.state)], true, true,
                         if before.disconnectReason.Some? then before.disconnectReason
                         else Some(DisconnectReason(reason, exception)))
    else after == before
  }

  /** A handshake that passed: HandShaked if the node is still connected,
      with the notifications that change raises. */
  function Handshaken(before: Lifecycle): (r: Lifecycle)
    ensures Advances(before.state, r.state)
    ensures r.state == HandShaked <==> IsConnected(before.state)
    ensures !IsConnected(before.state) ==> r == before
    ensures r.disconnecting == before.disconnecting && r.cancelRequested == before.cancelRequested
    ensures r.disconnectReason == before.disconnectReason
  {
    var next := HandshakeEnd(before.state);
    before.(state := next, notifications := before.notifications + Notifications(before.state, next))
  }

  /** The peer's version is recorded once one arrived. */
  predicate Records(read: HandshakeRead, before: Negotiation, after: Negotiation) {
    if read.Refused? || read.NoVerAck? || read.Completed? then after == Negotiation(Some(read.peer), read.peer.version)
    else after == before
  }

  /** What VersionHandshake does to the lifecycle with what it read: a refused
      peer is disconnected with the refusal's reason, a completed handshake
      is Handshaken, and nothing else changes it. */
  predicate Reacts(read: HandshakeRead, before: Lifecycle, after: Lifecycle) {
    if read.Refused? then Disconnects(before, after, Some(RefusalText(read.why)), None)
    else if read.Completed? then after == Handshaken(before)
    else after == before
  }

  /** What one SendMessageAsync does to the outbound side: a new completion,
      failed at once on a node that is not connected; otherwise pending, and
      the message is queued when the sending chain reaches its terminal
      action. */
  function Posted(o: Outbox, filters: seq<NodeFilter>, connected: bool, payload: Payload): Outbox {
    var id := o.nextCompletion;
    if !connected then Outbox(o.messages, o.completions[id := PeerDisconnected], id + 1, o.enqueued)
    else if FireFilters(SendingActions(filters, payload), 0).terminalRan then
      Outbox(o.messages + [SentMessage(payload, id)], o.completions[id := Pending], id + 1, o.enqueued + {id})
    else Outbox(o.messages, o.completions[id := Pending], id + 1, o.enqueued)
  }

  /** SendMessageAsync for each payload in turn. */
  function PostedAll(o: Outbox, filters: seq<NodeFilter>, connected: bool, payloads: seq<Payload>): Outbox
    decreases |payloads|
  {
    if payloads == [] then o
    else PostedAll(Posted(o, filters, connected, payloads[0]), filters, connected, payloads[1..])
  }

  ghost predicate OutboxValid(o: Outbox, processing: Option<SentMessage>) {
    QueueInvariant(o.messages, processing, o.completions, o.enqueued, o.nextCompletion)
  }

  /** One send keeps the queue invariant. Its completion takes the next id,
      which no completion had; every older completion is untouched. The
      message goes to the back of the queue exactly when the node is
      connected and the filters let it through; otherwise the queue is
      unchanged. */
  lemma PostedFacts(o: Outbox, processing: Option<SentMessage>, filters: seq<NodeFilter>, connected: bool, payload: Payload)
    requires OutboxValid(o, processing)
    ensures var r := Posted(o, filters, connected, payload);
      && OutboxValid(r, processing)
      && o.nextCompletion !in o.completions && r.nextCompletion == o.nextCompletion + 1
      && r.completions.Keys == o.completions.Keys + {o.nextCompletion}
      && (forall id | id in o.completions :: r.completions[id] == o.completions[id])
      && r.completions[o.nextCompletion] == (if connected then Pending else PeerDisconnected)
      && (r.messages == o.messages + [SentMessage(payload, o.nextCompletion)] <==>
            connected && FireFilters(SendingActions(filters, payload), 0).terminalRan)
      && (r.messages != o.messages ==> r.messages == o.messages + [SentMessage(payload, o.nextCompletion)])
  {
    var id := o.nextCompletion;
    var c := if connected then Pending else PeerDisconnected;
    AllocateKeepsQueue(o.messages, processing, o.completions, o.enqueued, id, c);
    if connected && FireFilters(SendingActions(filters, payload), 0).terminalRan {
      EnqueueKeepsQueue(o.messages, processing, o.completions[id := Pending], o.enqueued, id + 1, SentMessage(payload, id));
    }
  }

  /** Sending `xs` and then `ys` is sending `xs + ys`. */
  lemma {:induction false} PostedAllAppend(o: Outbox, filters: seq<NodeFilter>, connected: bool, xs: seq<Payload>, ys: seq<Payload>)
    decreases |xs|
    ensures PostedAll(o, filters, connected, xs + ys) == PostedAll(PostedAll(o, filters, connected, xs), filters, connected, ys)
  {
    if xs == [] {
      assert xs + ys == ys;
    } else {
      assert (xs + ys)[0] == xs[0] && (xs + ys)[1..] == xs[1..] + ys;
      PostedAllAppend(Posted(o, filters, connected, xs[0]), filters, connected, xs[1..], ys);
    }
  }

  lemma PostedAllCons(o: Outbox, filters: seq<NodeFilter>, connected: bool, p: Payload, ys: seq<Payload>)
    ensures PostedAll(o, filters, connected, [p] + ys) == PostedAll(Posted(o, filters, connected, p), filters, connected, ys)
  {
    assert ([p] + ys)[1..] == ys;
  }

  lemma PostedOne(o: Outbox, filters: seq<NodeFilter>, connected: bool, p: Payload)
    ensures PostedAll(o, filters, connected, [p]) == Posted(o, filters, connected, p)
  {
    assert [p][1..] == [];
  }

  lemma PostedTwo(o: Outbox, filters: seq<NodeFilter>, connected: bool, p: Payload, q: Payload)
    ensures PostedAll(o, filters, connected, [p, q]) == Posted(Posted(o, filters, connected, p), filters, connected, q)
  {
    assert [p, q][1..] == [q];
    PostedOne(Posted(o, filters, connected, p), filters, connected, q);
  }

  lemma PostedAllSnoc(o: Outbox, filters: seq<NodeFilter>, connected: bool, xs: seq<Payload>, p: Payload)
    ensures PostedAll(o, filters, connected, xs + [p]) == Posted(PostedAll(o, filters, connected, xs), filters, connected, p)
  {
    PostedAllAppend(o, filters, connected, xs, [p]);
    assert [p][1..] == [];
  }

  /** A run of sends keeps the queue invariant and allocates one completion
      per payload. It only ever appends to the queue, and appends nothing on
      a node that is not connected. Every completion already there is
      untouched. With no filters on a connected node, every payload is
      queued. */
  lemma {:induction false} PostedAllFacts(o: Outbox, processing: Option<SentMessage>, filters: seq<NodeFilter>,
                                          connected: bool, payloads: seq<Payload>)
    requires OutboxValid(o, processing)
    decreases |payloads|
    ensures var r := PostedAll(o, filters, connected, payloads);
      && OutboxValid(r, processing)
      && r.nextCompletion == o.nextCompletion + |payloads|
      && |o.messages| <= |r.messages| && r.messages[..|o.messages|] == o.messages
      && (!connected ==> r.messages == o.messages)
      && (filters == [] && connected ==> |r.messages| == |o.messages| + |payloads|)
      && (forall id | id in o.completions :: id in r.completions && r.completions[id] == o.completions[id])
  {
    if payloads != [] {
      var o' := Posted(o, filters, connected, payloads[0]);
      PostedFacts(o, processing, filters, connected, payloads[0]);
      PostedAllFacts(o', processing, filters, connected, payloads[1..]);
      var r := PostedAll(o', filters, connected, payloads[1..]);
      assert r.messages[..|o.messages|] == r.messages[..|o'.messages|][..|o.messages|];
    }
  }

  /** How VersionHandshake ends for each outcome of its read: an absent
      reply or verack is the cancelled wait, a reject is the ProtocolException,
      a first reply that is a verack is the failed cast to VersionPayload, and
      a refused peer is disconnected without an exception. */
  function VersionHandshakeResult(read: HandshakeRead): HandshakeResult {
    match read
    case NoReply => HandshakeFailed(OperationCanceled)
    case RejectedBy(reason) => HandshakeFailed(HandshakeRejected(reason))
    case NotAVersion => HandshakeFailed(InvalidCast)
    case Refused(_, why) => PeerRefused(why)
    case NoVerAck(_) => HandshakeFailed(OperationCanceled)
    case Completed(_) => HandShakeDone
  }

  /** A handshake completes only with a peer whose version and verack both
      arrived and whose version passed every check; a refusal names the first
      check that failed. */
  lemma HandshakeDoneOnlyWhenAccepted(replies: seq<Payload>, minPeerVersion: nat, req: NodeRequirement)
    ensures var read := ReadVersionHandshake(replies, minPeerVersion, req);
      VersionHandshakeResult(read) == HandShakeDone ==>
        && VerAck in replies && Version(read.peer) in replies
        && read.peer.version >= minPeerVersion
        && (req.minVersion.Some? ==> read.peer.version >= req.minVersion.value)
        && Covers(read.peer.services, req.requiredServices)
    ensures var read := ReadVersionHandshake(replies, minPeerVersion, req);
      VersionHandshakeResult(read).PeerRefused? ==>
        Version(read.peer) in replies && CheckPeerVersion(read.peer, minPeerVersion, req) == Refuse(read.why)
  {
    var read := ReadVersionHandshake(replies, minPeerVersion, req);
    if read.Completed? {
      AcceptedPeers(read.peer, minPeerVersion, req);
    }
  }

  class Node {
    // lifecycle
    var state: NodeState
    /** Every StateChanged and Disconnected notification fired, in order. */
    var notifications: seq<Notification>
    var disconnecting: bool
    var disconnectReason: Option<DisconnectReason>
    var cleaningUp: bool
    var cancelRequested: bool
    var disconnectedSignal: bool
    var socketClosed: bool
    /** The managed id of the listening thread. */
    const listenerThreadId: nat

    // the outbound queue and the sending thread
    var messages: seq<SentMessage>
    var completions: map<nat, Completion>
    var nextCompletion: nat
    var senderPc: SenderPc
    var processing: Option<SentMessage>
    /** The ids of the messages that were ever put in the queue. */
    ghost var enqueued: set<nat>
    /** Every payload handed to SendMessageAsync, in order. */
    ghost var requested: seq<Payload>

    // the listening thread and the receive side
    var receiverRunning: bool
    /** What reached the terminal action of the receive chain (pushed to the
        listeners and handed to the MessageReceived handlers). */
    var delivered: seq<Payload>

    // configuration and negotiated values
    const filters: seq<NodeFilter>
    const behaviors: seq<Behavior>
    /** Behavior ids on which Detach was called, and those whose Detach threw. */
    var detachAttempts: seq<nat>
    var detachFaults: seq<nat>
    var version: nat
    const myVersion: VersionPayload
    var peerVersion: Option<VersionPayload>
    const advertize: bool

    /** The completions of the messages still waiting to be written: the queue
        and the message being written. */
    ghost function Queued(): set<nat>
      reads this`messages, this`processing
    {
      InFlight(messages, processing)
    }

    ghost predicate QueueValid()
      reads this`messages, this`processing, this`completions, this`enqueued, this`nextCompletion
    {
      QueueInvariant(messages, processing, completions, enqueued, nextCompletion)
    }

    /** The outbound side as one value. */
    ghost function Box(): Outbox
      reads this`messages, this`completions, this`nextCompletion, this`enqueued
    {
      Outbox(messages, completions, nextCompletion, enqueued)
    }

    /** The lifecycle as one value. */
    ghost function Life(): Lifecycle
      reads this`state, this`notifications, this`disconnecting, this`cancelRequested, this`disconnectReason
    {
      Lifecycle(state, notifications, disconnecting, cancelRequested, disconnectReason)
    }

    /** What the handshake negotiated, as one value. */
    ghost function Peer(): Negotiation
      reads this`peerVersion, this`version
    {
      Negotiation(peerVersion, version)
    }

    /** The lifecycle flags: a thread that has stopped has run Cleanup,
        disconnection and cleanup both request cancellation, and only Cleanup
        ends the connection. */
    ghost predicate LifecycleValid()
      reads this`senderPc, this`receiverRunning, this`cleaningUp, this`disconnecting, this`cancelRequested,
        this`disconnectReason, this`disconnectedSignal, this`socketClosed, this`state
    {
      && (Terminal(state) ==> cleaningUp)
      && (senderPc == Stopped ==> cleaningUp)
      && (!receiverRunning ==> cleaningUp)
      && (disconnecting ==> cancelRequested)
      && (disconnectReason.Some? ==> cancelRequested)
      && (cleaningUp ==> cancelRequested && disconnectedSignal && socketClosed)
      && (disconnectedSignal ==> cleaningUp)
    }

    ghost predicate Valid()
      reads this
    {
      QueueValid() && SenderHolds(senderPc, processing) && LifecycleValid()
    }

    /** The outbound constructor once the socket connected: Connected, with
        both threads started. */
    constructor (filters: seq<NodeFilter>, behaviors: seq<Behavior>, myVersion: VersionPayload,
                 advertize: bool, listenerThreadId: nat)
      ensures Valid()
      ensures state == Connected && notifications == [StateChanged(Offline)]
      ensures messages == [] && completions == map[] && enqueued == {} && requested == []
      ensures senderPc == AwaitingItem && receiverRunning && delivered == []
      ensures !disconnecting && !cleaningUp && !cancelRequested && disconnectReason == None
      ensures this.filters == filters && this.behaviors == behaviors && this.myVersion == myVersion
      ensures this.advertize == advertize && this.listenerThreadId == listenerThreadId
      ensures version == myVersion.version && peerVersion == None
      ensures detachAttempts == [] && detachFaults == []
    {
      this.filters := filters;
      this.behaviors := behaviors;
      this.myVersion := myVersion;
      this.advertize := advertize;
      this.listenerThreadId := listenerThreadId;
      state := Offline;
      notifications := [];
      disconnecting := false;
      disconnectReason := None;
      cleaningUp := false;
      cancelRequested := false;
      disconnectedSignal := false;
      socketClosed := false;
      messages := [];
      completions := map[];
      nextCompletion := 0;
      senderPc := AwaitingItem;
      processing := None;
      enqueued := {};
      requested := [];
      receiverRunning := true;
      delivered := [];
      detachAttempts := [];
      detachFaults := [];
      version := myVersion.version;
      peerVersion := None;
      new;
      SetState(Connected);
    }

    // -------------------------------------------------------------------------
    // Lifecycle

    /** The State setter: the new value is stored, and the notifications of
        the transition are fired. */
    method SetState(value: NodeState)
      modifies this`state, this`notifications
      ensures state == value
      ensures notifications == old(notifications) + Notifications(old(state), value)
    {
      var previous := state;
      state := value;
      if previous != state {
        notifications := notifications + [StateChanged(previous)];
        if value == Failed || value == Offline {
          notifications := notifications + [Disconnected];
        }
      }
    }

    /** AssertNoListeningThread: refuses to run on the listening thread. */
    function NoListeningThread(callerThread: nat): (r: Outcome)
      reads this
      ensures r.Err? <==> callerThread == listenerThreadId
      ensures r.Err? ==> r.error == InvalidOperation(DeadlockMessage)
    {
      if listenerThreadId == callerThread then Err(InvalidOperation(DeadlockMessage)) else Ok
    }

    /** What DisconnectAsync does to the lifecycle, as Disconnects states. */
    twostate predicate DisconnectStep(reason: Option<string>, exception: Option<Fault>)
      reads this`state, this`notifications, this`disconnecting, this`cancelRequested, this`disconnectReason
    {
      Disconnects(old(Life()), Life(), reason, exception)
    }

    /** DisconnectAsync: on a connected node, the first call claims the
        disconnection, moves to Disconnecting, requests cancellation and records
        its reason unless a reason is already recorded. Every other call does
        nothing. */
    method DisconnectAsync(reason: Option<string>, exception: Option<Fault>)
      requires LifecycleValid()
      modifies this`state, this`notifications, this`disconnecting, this`cancelRequested, this`disconnectReason
      ensures LifecycleValid()
      ensures DisconnectStep(reason, exception)
      ensures Advances(old(state), state)
    {
      if !IsConnected(state) {
        return;
      }
      if disconnecting {
        return;
      }
      disconnecting := true;
      SetState(Disconnecting);
      cancelRequested := true;
      if disconnectReason.None? {
        disconnectReason := Some(DisconnectReason(reason, exception));
      }
    }

    /** Disconnect: DisconnectAsync, then the listening-thread check. The wait
        for the disconnected signal is not modelled. */
    method Disconnect(reason: Option<string>, exception: Option<Fault>, callerThread: nat) returns (out: Outcome)
      requires LifecycleValid()
      modifies this`state, this`notifications, this`disconnecting, this`cancelRequested, this`disconnectReason
      ensures LifecycleValid()
      ensures out == NoListeningThread(callerThread)
      ensures DisconnectStep(reason, exception)
      ensures Advances(old(state), state)
    {
      DisconnectAsync(reason, exception);
      out := NoListeningThread(callerThread);
    }

    /** What a first Cleanup does: the state becomes Failed with the
        unexpected-exception reason when nobody had requested cancellation,
        and otherwise Offline unless it already was Failed; cancellation is
        requested, the socket closed, the disconnected signal set, and Detach
        attempted on every behavior however many of them throw. A later
        Cleanup changes nothing. */
    twostate predicate CleanedUp(fault: Option<Fault>)
      reads this`cleaningUp, this`state, this`notifications, this`disconnectReason, this`cancelRequested,
        this`socketClosed, this`disconnectedSignal, this`detachAttempts, this`detachFaults
    {
      if old(cleaningUp) then
        && state == old(state) && notifications == old(notifications)
        && disconnectReason == old(disconnectReason) && cancelRequested == old(cancelRequested)
        && disconnectedSignal == old(disconnectedSignal) && socketClosed == old(socketClosed)
        && detachAttempts == old(detachAttempts) && detachFaults == old(detachFaults)
      else
        && cleaningUp && cancelRequested && socketClosed && disconnectedSignal
        && (!old(cancelRequested) ==>
              state == Failed && disconnectReason == Some(DisconnectReason(Some(UnexpectedException), fault)))
        && (old(cancelRequested) ==>
              state == (if old(state) == Failed then Failed else Offline) && disconnectReason == old(disconnectReason))
        && notifications == old(notifications) + Notifications(old(state), state)
        && detachAttempts == old(detachAttempts) + BehaviorIds(behaviors)
        && detachFaults == old(detachFaults) + ThrowingIds(behaviors)
    }

    /** NodeConnection.Cleanup, run by whichever thread stops first. */
    method Cleanup(fault: Option<Fault>)
      requires LifecycleValid()
      modifies this`cleaningUp, this`state, this`notifications, this`disconnectReason, this`cancelRequested,
        this`socketClosed, this`disconnectedSignal, this`detachAttempts, this`detachFaults
      ensures CleanedUp(fault)
      ensures cleaningUp
      ensures LifecycleValid()
      ensures Advances(old(state), state)
    {
      if cleaningUp {
        return;
      }
      cleaningUp := true;
      if !cancelRequested {
        SetState(Failed);
        disconnectReason := Some(DisconnectReason(Some(UnexpectedException), fault));
      }
      if state != Failed {
        SetState(Offline);
      }
      cancelRequested := true;
      socketClosed := true;
      disconnectedSignal := true;
      DetachBehaviors();
    }

    /** The loop over the behaviors at the end of Cleanup: Detach is called on
        each one in collection order, and an exception it throws is logged and
        does not stop the loop. */
    method DetachBehaviors()
      modifies this`detachAttempts, this`detachFaults
      ensures detachAttempts == old(detachAttempts) + BehaviorIds(behaviors)
      ensures detachFaults == old(detachFaults) + ThrowingIds(behaviors)
    {
      for i := 0 to |behaviors|
        invariant detachAttempts == old(detachAttempts) + BehaviorIds(behaviors[..i])
        invariant detachFaults == old(detachFaults) + ThrowingIds(behaviors[..i])
      {
        assert behaviors[..i + 1][..i] == behaviors[..i];
        detachAttempts := detachAttempts + [behaviors[i].id];
        if behaviors[i].detachThrows {
          detachFaults := detachFaults + [behaviors[i].id];
        }
      }
      assert behaviors[..|behaviors|] == behaviors;
    }

    // -------------------------------------------------------------------------
    // Sending

    /** SendMessageAsync: a new completion is created. When the node is not
        connected it fails at once and nothing is queued; otherwise the
        payload goes through the filters and is queued exactly when the
        terminal action of the chain runs (a withheld payload stays pending). */
    method SendMessageAsync(payload: Payload) returns (id: nat)
      requires QueueValid()
      modifies this`nextCompletion, this`completions, this`messages, this`enqueued, this`requested
      ensures QueueValid()
      ensures id == old(nextCompletion) && id !in old(completions)
      ensures requested == old(requested) + [payload]
      ensures Box() == Posted(old(Box()), filters, IsConnected(state), payload)
    {
      id := nextCompletion;
      requested := requested + [payload];
      if !IsConnected(state) {
        AllocateKeepsQueue(messages, processing, completions, enqueued, nextCompletion, PeerDisconnected);
        completions := completions[id := PeerDisconnected];
        nextCompletion := nextCompletion + 1;
        return;
      }
      AllocateKeepsQueue(messages, processing, completions, enqueued, nextCompletion, Pending);
      completions := completions[id := Pending];
      nextCompletion := nextCompletion + 1;
      var run := FireFilters(SendingActions(filters, payload), 0);
      if run.terminalRan {
        EnqueueKeepsQueue(messages, processing, completions, enqueued, nextCompletion, SentMessage(payload, id));
        messages := messages + [SentMessage(payload, id)];
        enqueued := enqueued + {id};
      }
    }

    // -------------------------------------------------------------------------
    // The sending thread

    /** The sending thread takes the head of the queue and starts writing it. */
    method SenderTake()
      requires Valid()
      requires senderPc == AwaitingItem && !cancelRequested && messages != []
      modifies this`messages, this`processing, this`senderPc
      ensures Valid()
      ensures processing == Some(old(messages[0])) && messages == old(messages[1..]) && senderPc == AwaitingWrite
      ensures Queued() == old(Queued())
    {
      TakeKeepsQueue(messages, completions, enqueued, nextCompletion);
      processing := Some(messages[0]);
      messages := messages[1..];
      senderPc := AwaitingWrite;
    }

    /** The wait on the write returns. If cancellation was requested meanwhile
        the thread leaves its loop still holding the message; if the send threw
        it leaves with that exception; otherwise the message's completion
        succeeds and the thread goes back to the queue. */
    method SenderWriteDone(outcome: WriteOutcome)
      requires Valid()
      requires senderPc == AwaitingWrite
      modifies this`processing, this`completions, this`senderPc
      ensures Valid()
      ensures cancelRequested ==>
        senderPc == Exiting(None) && processing == old(processing) && completions == old(completions)
      ensures !cancelRequested && outcome.WriteFault? ==>
        senderPc == Exiting(Some(outcome.fault)) && processing == old(processing) && completions == old(completions)
      ensures !cancelRequested && outcome.Written? ==>
        && senderPc == AwaitingItem && processing == None
        && completions == old(completions)[old(processing).value.completion := Succeeded]
    {
      if cancelRequested {
        senderPc := Exiting(None);
      } else if outcome.WriteFault? {
        senderPc := Exiting(Some(outcome.fault));
      } else {
        WrittenKeepsQueue(messages, processing.value, completions, enqueued, nextCompletion);
        completions := completions[processing.value.completion := Succeeded];
        processing := None;
        senderPc := AwaitingItem;
      }
    }

    /** The loop over the captured messages that fails each completion. */
    method FailAll(pending: seq<SentMessage>)
      modifies this`completions
      ensures completions.Keys == old(completions).Keys + Ids(pending)
      ensures forall id | id in completions ::
        completions[id] == if id in Ids(pending) then PeerDisconnected else old(completions)[id]
    {
      for i := 0 to |pending|
        invariant completions.Keys == old(completions).Keys + Ids(pending[..i])
        invariant forall id | id in completions ::
          completions[id] == if id in Ids(pending[..i]) then PeerDisconnected else old(completions)[id]
      {
        assert pending[..i + 1] == pending[..i] + [pending[i]];
        IdsAppend(pending[..i], pending[i]);
        completions := completions[pending[i].completion := PeerDisconnected];
      }
      assert pending[..|pending|] == pending;
    }

    /** The tail of the sending thread before Cleanup: the message it held
        goes back to the queue, every queued completion fails with "The peer
        has been disconnected", and the queue is replaced by an empty one. */
    method DrainQueue()
      requires QueueValid()
      modifies this`messages, this`processing, this`completions
      ensures messages == [] && processing == None
      ensures completions.Keys == old(completions).Keys
      ensures forall id | id in completions ::
        completions[id] == if id in old(Queued()) then PeerDisconnected else old(completions)[id]
      ensures forall id | id in enqueued :: completions[id] != Pending
      ensures QueueInvariant([], None, completions, enqueued, nextCompletion)
    {
      var pending := messages + (if processing.Some? then [processing.value] else []);
      assert Ids(pending) == Queued() by {
        if processing.Some? {
          IdsAppend(messages, processing.value);
        } else {
          assert pending == messages;
        }
      }
      ghost var before := completions;
      messages := pending;
      FailAll(pending);
      DrainKeepsQueue(old(messages), old(processing), before, completions, enqueued, nextCompletion);
      messages := [];
      processing := None;
    }

    /** The sending thread leaves its loop (cancelled while waiting for an
        item, or exiting) and drains the queue: afterwards no message that was
        ever queued is still pending. */
    method SenderDrain()
      requires Valid()
      requires senderPc.Exiting? || (senderPc == AwaitingItem && cancelRequested)
      modifies this`messages, this`processing, this`completions, this`senderPc
      ensures Valid()
      ensures senderPc == Drained(if old(senderPc).Exiting? then old(senderPc).fault else None)
      ensures messages == [] && processing == None
      ensures completions.Keys == old(completions).Keys
      ensures forall id | id in completions ::
        completions[id] == if id in old(Queued()) then PeerDisconnected else old(completions)[id]
      ensures forall id | id in enqueued :: completions[id] != Pending
    {
      var fault := if senderPc.Exiting? then senderPc.fault else None;
      DrainQueue();
      senderPc := Drained(fault);
    }

    /** The last step of the sending thread: Cleanup with the exception the
        thread caught. A message queued since the drain stays in the new
        queue. */
    method SenderStop()
      requires Valid()
      requires senderPc.Drained?
      modifies this`senderPc,
        this`cleaningUp, this`state, this`notifications, this`disconnectReason, this`cancelRequested,
        this`socketClosed, this`disconnectedSignal, this`detachAttempts, this`detachFaults
      ensures Valid()
      ensures senderPc == Stopped
      ensures CleanedUp(old(senderPc).fault)
      ensures Advances(old(state), state)
    {
      Cleanup(senderPc.fault);
      senderPc := Stopped;
    }

    // -------------------------------------------------------------------------
    // The listening thread

    /** The duplicate-version gate of OnMessageReceived: a version message
        received once HandShaked is answered with a DUPLICATE reject when the
        negotiated version is at least 70002. */
    method AnswerDuplicateVersion(p: Payload) returns (reply: Option<nat>)
      requires QueueValid()
      modifies this`nextCompletion, this`completions, this`messages, this`enqueued, this`requested
      ensures QueueValid()
      ensures reply.Some? <==> AnswersDuplicateVersion(p, state, version)
      ensures reply.Some? ==> requested == old(requested) + [Reject(Duplicate, "")] && reply.value == old(nextCompletion)
      ensures reply.None? ==> requested == old(requested)
      ensures Box() == if reply.Some? then Posted(old(Box()), filters, true, Reject(Duplicate, "")) else old(Box())
    {
      reply := None;
      if AnswersDuplicateVersion(p, state, version) {
        var id := SendMessageAsync(Reject(Duplicate, ""));
        reply := Some(id);
      }
    }

    /** The receive chain of OnMessageReceived: the message reaches the
        listeners exactly when the terminal action runs. */
    method PassToListeners(p: Payload)
      modifies this`delivered
      ensures delivered == old(delivered) + (if FireFilters(ReceivingActions(filters, p), 0).terminalRan then [p] else [])
    {
      var run := FireFilters(ReceivingActions(filters, p), 0);
      if run.terminalRan {
        delivered := delivered + [p];
      }
    }

    /** OnMessageReceived: the duplicate-version gate, then the receive chain. */
    method OnMessageReceived(p: Payload) returns (reply: Option<nat>)
      requires Valid()
      modifies this`nextCompletion, this`completions, this`messages, this`enqueued, this`requested, this`delivered
      ensures Valid()
      ensures reply.Some? <==> AnswersDuplicateVersion(p, state, version)
      ensures reply.Some? ==> requested == old(requested) + [Reject(Duplicate, "")] && reply.value == old(nextCompletion)
      ensures reply.None? ==> requested == old(requested)
      ensures Box() == if reply.Some? then Posted(old(Box()), filters, true, Reject(Duplicate, "")) else old(Box())
      ensures delivered == old(delivered) + (if FireFilters(ReceivingActions(filters, p), 0).terminalRan then [p] else [])
    {
      reply := AnswerDuplicateVersion(p);
      PassToListeners(p);
    }

    /** The listening thread reads one message while cancellation has not
        been requested, and hands it to OnMessageReceived. */
    method ReceiverDeliver(p: Payload) returns (reply: Option<nat>)
      requires Valid()
      requires receiverRunning && !cancelRequested
      modifies this`nextCompletion, this`completions, this`messages, this`enqueued, this`requested, this`delivered
      ensures Valid()
      ensures reply.Some? <==> AnswersDuplicateVersion(p, state, version)
      ensures reply.Some? ==> requested == old(requested) + [Reject(Duplicate, "")]
      ensures reply.None? ==> requested == old(requested)
      ensures Box() == if reply.Some? then Posted(old(Box()), filters, true, Reject(Duplicate, "")) else old(Box())
      ensures delivered == old(delivered) + (if FireFilters(ReceivingActions(filters, p), 0).terminalRan then [p] else [])
    {
      reply := OnMessageReceived(p);
    }

    /** The listening thread leaves its loop, because cancellation was
        requested or with the exception a read threw, and runs Cleanup. */
    method ReceiverStop(fault: Option<Fault>)
      requires Valid()
      requires receiverRunning && (fault.Some? || cancelRequested)
      modifies this`receiverRunning,
        this`cleaningUp, this`state, this`notifications, this`disconnectReason, this`cancelRequested,
        this`socketClosed, this`disconnectedSignal, this`detachAttempts, this`detachFaults
      ensures Valid()
      ensures !receiverRunning
      ensures CleanedUp(fault)
      ensures Advances(old(state), state)
    {
      Cleanup(fault);
      receiverRunning := false;
    }

    // -------------------------------------------------------------------------
    // Handshakes

    /** The payloads `sends` were handed to SendMessageAsync in order, on a
        node whose connectedness is that of the state it started in. */
    twostate predicate Posts(sends: seq<Payload>)
      reads this`messages, this`completions, this`nextCompletion, this`enqueued, this`requested, this`state
    {
      && Box() == PostedAll(old(Box()), filters, IsConnected(old(state)), sends)
      && requested == old(requested) + sends
    }

    /** Nothing a handshake may write has changed. */
    twostate predicate Untouched()
      reads this`messages, this`completions, this`nextCompletion, this`enqueued, this`requested,
        this`peerVersion, this`version, this`state, this`notifications,
        this`disconnecting, this`cancelRequested, this`disconnectReason
    {
      Box() == old(Box()) && requested == old(requested) && Peer() == old(Peer()) && Life() == old(Life())
    }

    /** SendMessageAsync as the handshakes use it: the payload is sent and
        the completion is not awaited. */
    method Send(payload: Payload)
      requires QueueValid() && LifecycleValid()
      modifies this`nextCompletion, this`completions, this`messages, this`enqueued, this`requested
      ensures QueueValid() && LifecycleValid()
      ensures requested == old(requested) + [payload]
      ensures Box() == Posted(old(Box()), filters, IsConnected(state), payload)
    {
      var _ := SendMessageAsync(payload);
    }

    /** The peer's version message is recorded and its protocol version
        becomes the negotiated one. */
    method RecordPeerVersion(v: VersionPayload)
      requires QueueValid() && LifecycleValid()
      modifies this`peerVersion, this`version
      ensures QueueValid() && LifecycleValid()
      ensures peerVersion == Some(v) && version == v.version
    {
      peerVersion := Some(v);
      version := v.version;
    }

    /** The state change at the end of a handshake that passed: HandShaked,
        unless the node is no longer connected. */
    method EndHandshake()
      requires QueueValid() && LifecycleValid()
      modifies this`state, this`notifications
      ensures QueueValid() && LifecycleValid()
      ensures Life() == Handshaken(old(Life()))
    {
      if IsConnected(state) {
        SetState(HandShaked);
      }
    }

    /** The end of a handshake that passed: a verack is sent, the handshake
        ends as EndHandshake says, and an addr is sent when the node
        advertises a routable address. */
    method CompleteHandshake(advertizes: bool)
      requires QueueValid() && LifecycleValid()
      modifies this`nextCompletion, this`completions, this`messages, this`enqueued, this`requested,
        this`state, this`notifications
      ensures QueueValid() && LifecycleValid()
      ensures Posts(if advertizes then [VerAck, Addr] else [VerAck])
      ensures Life() == Handshaken(old(Life()))
    {
      PostedOne(Box(), filters, IsConnected(state), VerAck);
      PostedTwo(Box(), filters, IsConnected(state), VerAck, Addr);
      Send(VerAck);
      EndHandshake();
      if advertizes {
        Send(Addr);
      }
    }

    /** A refused peer: its version is recorded and the node disconnects with
        the refusal's reason. */
    method RefusePeer(v: VersionPayload, reason: string, callerThread: nat)
      requires QueueValid() && LifecycleValid()
      requires callerThread != listenerThreadId
      modifies this`state, this`notifications, this`disconnecting, this`cancelRequested, this`disconnectReason,
        this`peerVersion, this`version
      ensures QueueValid() && LifecycleValid()
      ensures Peer() == Negotiation(Some(v), v.version)
      ensures DisconnectStep(Some(reason), None)
      ensures Advances(old(state), state)
    {
      RecordPeerVersion(v);
      var out := Disconnect(Some(reason), None, callerThread);
    }

    /** An accepted peer whose verack never arrives: its version is recorded
        and the verack sent before the wait is cancelled. */
    method AcceptWithoutVerAck(v: VersionPayload)
      requires QueueValid() && LifecycleValid()
      modifies this`nextCompletion, this`completions, this`messages, this`enqueued, this`requested,
        this`peerVersion, this`version
      ensures QueueValid() && LifecycleValid()
      ensures Peer() == Negotiation(Some(v), v.version)
      ensures Posts([VerAck])
    {
      ghost var start := Box();
      RecordPeerVersion(v);
      Send(VerAck);
      assert Box() == PostedAll(start, filters, IsConnected(state), [VerAck]);
    }

    /** What VersionHandshake does with a peer it did not refuse: its
        version, when it sent one, is recorded; the verack is sent when the
        peer was accepted, and the handshake completes when the peer's verack
        arrived. */
    method ActOnAcceptance(read: HandshakeRead, advertizes: bool)
      requires QueueValid() && LifecycleValid() && !read.Refused?
      modifies this`nextCompletion, this`completions, this`messages, this`enqueued, this`requested,
        this`state, this`notifications, this`peerVersion, this`version
      ensures QueueValid() && LifecycleValid()
      ensures Posts(HandshakeSends(read, advertizes))
      ensures Records(read, old(Peer()), Peer()) && Reacts(read, old(Life()), Life())
      ensures Advances(old(state), state)
    {
      match read
      case NoVerAck(v) =>
        AcceptWithoutVerAck(v);
      case Completed(v) =>
        RecordPeerVersion(v);
        CompleteHandshake(advertizes);
      case NoReply =>
      case RejectedBy(_) =>
      case NotAVersion =>
    }

    /** What VersionHandshake does once its version is sent and the listener
        has read the replies: record the peer's version, then disconnect a
        refused peer, or send the verack and complete. */
    method ActOnVersionRead(read: HandshakeRead, advertizes: bool, callerThread: nat) returns (result: HandshakeResult)
      requires QueueValid() && LifecycleValid()
      requires callerThread != listenerThreadId
      modifies this`nextCompletion, this`completions, this`messages, this`enqueued, this`requested,
        this`state, this`notifications, this`disconnecting, this`cancelRequested, this`disconnectReason,
        this`peerVersion, this`version
      ensures QueueValid() && LifecycleValid()
      ensures result == VersionHandshakeResult(read)
      ensures Posts(HandshakeSends(read, advertizes))
      ensures Records(read, old(Peer()), Peer()) && Reacts(read, old(Life()), Life())
      ensures Advances(old(state), state)
    {
      result := VersionHandshakeResult(read);
      if read.Refused? {
        RefusePeer(read.peer, RefusalText(read.why), callerThread);
      } else {
        ActOnAcceptance(read, advertizes);
      }
    }

    /** VersionHandshake past the listening-thread check: the node sends its
        version, then acts on what its listener read. */
    method ExchangeVersions(read: HandshakeRead, advertizes: bool, callerThread: nat) returns (result: HandshakeResult)
      requires QueueValid() && LifecycleValid()
      requires callerThread != listenerThreadId
      modifies this`nextCompletion, this`completions, this`messages, this`enqueued, this`requested,
        this`state, this`notifications, this`disconnecting, this`cancelRequested, this`disconnectReason,
        this`peerVersion, this`version
      ensures QueueValid() && LifecycleValid()
      ensures result == VersionHandshakeResult(read)
      ensures Posts([Version(myVersion)] + HandshakeSends(read, advertizes))
      ensures Records(read, old(Peer()), Peer()) && Reacts(read, old(Life()), Life())
      ensures Advances(old(state), state)
    {
      PostedAllCons(Box(), filters, IsConnected(state), Version(myVersion), HandshakeSends(read, advertizes));
      Send(Version(myVersion));
      result := ActOnVersionRead(read, advertizes, callerThread);
    }

    /** VersionHandshake: refused on the listening thread (creating the
        listener asserts it), with nothing changed; otherwise the version
        exchange, a null requirement being the default one. */
    method VersionHandshake(requirements: Option<NodeRequirement>, minPeerVersion: nat, replies: seq<Payload>,
                            routable: bool, callerThread: nat) returns (result: HandshakeResult)
      requires Valid()
      modifies this`nextCompletion, this`completions, this`messages, this`enqueued, this`requested,
        this`state, this`notifications, this`disconnecting, this`cancelRequested, this`disconnectReason,
        this`peerVersion, this`version
      ensures Valid()
      ensures Advances(old(state), state)
      ensures callerThread == listenerThreadId ==>
        result == HandshakeFailed(InvalidOperation(DeadlockMessage)) && Untouched()
      ensures callerThread != listenerThreadId ==>
        var read := ReadVersionHandshake(replies, minPeerVersion,
                                         if requirements.Some? then requirements.value else DefaultRequirement);
        && result == VersionHandshakeResult(read)
        && Posts([Version(myVersion)] + HandshakeSends(read, advertize && routable))
        && Records(read, old(Peer()), Peer()) && Reacts(read, old(Life()), Life())
    {
      var listening := NoListeningThread(callerThread);
      if listening.Err? {
        return HandshakeFailed(listening.error);
      }
      var req := if requirements.Some? then requirements.value else DefaultRequirement;
      var read := ReadVersionHandshake(replies, minPeerVersion, req);
      result := ExchangeVersions(read, advertize && routable, callerThread);
    }

    /** RespondToHandShake past the listening-thread check: the node sends
        its version; a reject is the ProtocolException, a verack is answered
        with a verack and the state becomes HandShaked if the node is still
        connected. */
    method AnswerResponder(read: ResponderRead) returns (result: HandshakeResult)
      requires QueueValid() && LifecycleValid()
      modifies this`nextCompletion, this`completions, this`messages, this`enqueued, this`requested,
        this`state, this`notifications
      ensures QueueValid() && LifecycleValid()
      ensures read == NoAnswer ==> result == HandshakeFailed(OperationCanceled)
      ensures read.RejectedWith? ==> result == HandshakeFailed(VersionRejected(read.code, read.reason))
      ensures read == Acknowledged ==> result == HandShakeDone
      ensures Posts(if read == Acknowledged then [Version(myVersion), VerAck] else [Version(myVersion)])
      ensures Life() == if read == Acknowledged then Handshaken(old(Life())) else old(Life())
    {
      PostedOne(Box(), filters, IsConnected(state), Version(myVersion));
      PostedTwo(Box(), filters, IsConnected(state), Version(myVersion), VerAck);
      Send(Version(myVersion));
      match read
      case NoAnswer =>
        result := HandshakeFailed(OperationCanceled);
      case RejectedWith(code, reason) =>
        result := HandshakeFailed(VersionRejected(code, reason));
      case Acknowledged =>
        Send(VerAck);
        EndHandshake();
        result := HandShakeDone;
    }

    /** RespondToHandShake: refused on the listening thread, with nothing
        changed; otherwise the answer to the first verack or reject. */
    method RespondToHandShake(replies: seq<Payload>, callerThread: nat) returns (result: HandshakeResult)
      requires Valid()
      modifies this`nextCompletion, this`completions, this`messages, this`enqueued, this`requested,
        this`state, this`notifications
      ensures Valid()
      ensures Advances(old(state), state)
      ensures callerThread == listenerThreadId ==>
        result == HandshakeFailed(InvalidOperation(DeadlockMessage)) && Untouched()
      ensures callerThread != listenerThreadId ==>
        var read := ReadResponderHandshake(replies);
        && (read == NoAnswer ==> result == HandshakeFailed(OperationCanceled))
        && (read.RejectedWith? ==> result == HandshakeFailed(VersionRejected(read.code, read.reason)))
        && (read == Acknowledged ==> result == HandShakeDone)
        && Posts(if read == Acknowledged then [Version(myVersion), VerAck] else [Version(myVersion)])
        && Life() == if read == Acknowledged then Handshaken(old(Life())) else old(Life())
    {
      var listening := NoListeningThread(callerThread);
      if listening.Err? {
        return HandshakeFailed(listening.error);
      }
      result := AnswerResponder(ReadResponderHandshake(replies));
    }

    /** AssertState: a node that is asked to be HandShaked while Connected
        first runs VersionHandshake with the default requirement; then the
        state must be the needed one. */
    method AssertState(needed: NodeState, minPeerVersion: nat, replies: seq<Payload>, routable: bool,
                       callerThread: nat) returns (out: Outcome)
      requires Valid()
      modifies this`nextCompletion, this`completions, this`messages, this`enqueued, this`requested,
        this`state, this`notifications, this`disconnecting, this`cancelRequested, this`disconnectReason,
        this`peerVersion, this`version
      ensures Valid()
      ensures Advances(old(state), state)
      ensures out.Ok? ==> state == needed
      ensures out.Err? && out.error.InvalidState? ==> out.error == InvalidState(needed, state) && state != needed
      ensures !(needed == HandShaked && old(state) == Connected) ==>
        && Untouched()
        && out == (if needed == state then Ok else Err(InvalidState(needed, state)))
      ensures needed == HandShaked && old(state) == Connected && callerThread == listenerThreadId ==>
        out == Err(InvalidOperation(DeadlockMessage)) && Untouched()
      ensures needed == HandShaked && old(state) == Connected && callerThread != listenerThreadId ==>
        var read := ReadVersionHandshake(replies, minPeerVersion, DefaultRequirement);
        && Posts([Version(myVersion)] + HandshakeSends(read, advertize && routable))
        && Records(read, old(Peer()), Peer()) && Reacts(read, old(Life()), Life())
        && (out.Ok? <==> read.Completed?)
    {
      if needed == HandShaked && state == Connected {
        var result := VersionHandshake(None, minPeerVersion, replies, routable, callerThread);
        if result.HandshakeFailed? {
          return Err(result.error);
        }
      }
      if needed != state {
        return Err(InvalidState(needed, state));
      }
      out := Ok;
    }
  }
}
