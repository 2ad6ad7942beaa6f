/** The connection lifecycle: the NodeState enum, the IsConnected guard and
    the notifications the State setter fires on a transition. */
module NodeStates {

  /** The five lifecycle states, in the enum's declaration order. */
  datatype NodeState = Failed | Offline | Disconnecting | Connected | HandShaked

  /** Failed and Offline end the connection's lifetime. */
  predicate Terminal(s: NodeState) {
    s == Failed || s == Offline
  }

  /** IsConnected: the node can carry messages, which is the case in exactly
      two of the five states. */
  function IsConnected(s: NodeState): (r: bool)
    ensures r <==> !Terminal(s) && s != Disconnecting
    ensures r ==> s != Failed && s != Offline
  {
    s == Connected || s == HandShaked
  }

  /** What a subscriber can observe: StateChanged carries the previous state;
      Disconnected carries nothing. */
  datatype Notification = StateChanged(previous: NodeState) | Disconnected

  /** The notifications the State setter fires when the state goes from
      `previous` to `next`. */
  function Notifications(previous: NodeState, next: NodeState): seq<Notification> {
    if previous == next then []
    else [StateChanged(previous)] + (if Terminal(next) then [Disconnected] else [])
  }

  /** Nothing at all is fired when the value does not change; otherwise
      StateChanged(previous) first and only first, followed by Disconnected
      exactly when the new state is terminal. */
  lemma NotificationRules(previous: NodeState, next: NodeState)
    ensures var r := Notifications(previous, next);
      && (r == [] <==> previous == next)
      && (r != [] ==> r[0] == StateChanged(previous))
      && (Disconnected in r <==> previous != next && Terminal(next))
      && (forall k | 0 <= k < |r| :: r[k] == StateChanged(previous) <==> k == 0)
  {
  }

  /** The order the lifecycle moves in: a terminal state is never left, a
      Disconnecting node can only end, and a HandShaked node never goes back
      to Connected. */
  predicate Advances(previous: NodeState, next: NodeState) {
    && (Terminal(previous) ==> next == previous)
    && (previous == Disconnecting ==> next == Disconnecting || Terminal(next))
    && (previous == HandShaked ==> next != Connected)
  }

  /** Advances is an order: reflexive, transitive and antisymmetric. */
  lemma AdvancesIsOrder(a: NodeState, b: NodeState, c: NodeState)
    ensures Advances(a, a)
    ensures Advances(a, b) && Advances(b, c) ==> Advances(a, c)
    ensures Advances(a, b) && Advances(b, a) ==> a == b
  {
  }

  /** Along the order, a node that stopped carrying messages never carries
      them again. */
  lemma NoRevival(a: NodeState, b: NodeState)
    requires Advances(a, b)
    ensures !IsConnected(a) ==> !IsConnected(b)
    ensures Terminal(a) ==> b == a
  {
  }

  /** The state the end of a handshake leaves as Node.cs:920 and 951 are
      written: HandShaked, whatever the state was by then. */
  function HandshakeEndAsWritten(s: NodeState): NodeState {
    HandShaked
  }

  /** As written, a handshake that finishes after the connection closed
      brings an Offline node back to a connected state, against the order. */
  lemma AsWrittenHandshakeRevives()
    ensures Terminal(Offline) && IsConnected(HandshakeEndAsWritten(Offline))
    ensures !Advances(Offline, HandshakeEndAsWritten(Offline))
    ensures !Advances(Disconnecting, HandshakeEndAsWritten(Disconnecting))
  {
  }

  /** The state the end of a handshake leaves: HandShaked while the node is
      still connected; a node that is disconnecting or closed keeps its
      state. */
  function HandshakeEnd(s: NodeState): (r: NodeState)
    ensures Advances(s, r)
    ensures r == HandShaked <==> IsConnected(s)
    ensures IsConnected(r) == IsConnected(s)
    ensures !IsConnected(s) ==> r == s
  {
    if IsConnected(s) then HandShaked else s
  }
}
