/** The filter pipeline every outgoing payload and every incoming message
    passes through: the node's filters in collection order, followed by one
    terminal action (enqueue for sending; publish to subscribers on receipt). */
module Filters {
  import opened Payloads

  /** What one filter does with the message it is handed: invoke the
      continuation (pass it on), keep the continuation to itself (drop or
      buffer the message), or throw. */
  datatype FilterAction = CallsNext | Withholds | Throws

  /** An INodeFilter: its choice for each outgoing payload and for each
      incoming message. */
  datatype NodeFilter = NodeFilter(onSending: Payload -> FilterAction, onReceiving: Payload -> FilterAction)

  /** The choices the filters make, in collection order, for one outgoing payload. */
  function SendingActions(filters: seq<NodeFilter>, p: Payload): seq<FilterAction> {
    seq(|filters|, i requires 0 <= i < |filters| => filters[i].onSending(p))
  }

  /** The choices the filters make, in collection order, for one incoming message. */
  function ReceivingActions(filters: seq<NodeFilter>, p: Payload): seq<FilterAction> {
    seq(|filters|, i requires 0 <= i < |filters| => filters[i].onReceiving(p))
  }

  /** One pass through the chain: the positions of the filters that were
      invoked, whether the terminal action ran, and whether an exception
      was caught and swallowed on the way. */
  datatype FilterRun = FilterRun(invoked: seq<nat>, terminalRan: bool, swallowed: bool)

  /** FireFilters with the enumerator over `filters ++ [terminal]` about to
      move to position `pos`. Each filter is handed a continuation that fires
      the rest of the chain; an exception a filter throws is caught at its own
      level, so nothing escapes the chain. */
  function FireFilters(actions: seq<FilterAction>, pos: nat): (r: FilterRun)
    requires pos <= |actions|
    decreases |actions| - pos
  {
    if pos == |actions| then
      FilterRun([], true, false)
    else
      match actions[pos]
      case CallsNext =>
        var rest := FireFilters(actions, pos + 1);
        FilterRun([pos] + rest.invoked, rest.terminalRan, rest.swallowed)
      case Withholds => FilterRun([pos], false, false)
      case Throws => FilterRun([pos], false, true)
  }

  /** What one pass through the chain does. */
  lemma {:induction false} ChainRules(actions: seq<FilterAction>, pos: nat)
    requires pos <= |actions|
    decreases |actions| - pos
    // filters are invoked one after another, in collection order, from `pos`
    ensures var r := FireFilters(actions, pos);
      && pos + |r.invoked| <= |actions|
      && (forall j | 0 <= j < |r.invoked| :: r.invoked[j] == pos + j)
    // the terminal action runs exactly when every filter passed the message on
    ensures var r := FireFilters(actions, pos);
      r.terminalRan <==> forall k | pos <= k < |actions| :: actions[k] == CallsNext
    ensures var r := FireFilters(actions, pos);
      r.terminalRan ==> pos + |r.invoked| == |actions|
    // otherwise the chain stops at the first filter that did not call its continuation
    ensures var r := FireFilters(actions, pos);
      && (!r.terminalRan ==> |r.invoked| > 0 && actions[pos + |r.invoked| - 1] != CallsNext)
      && (forall k | pos <= k < pos + |r.invoked| - 1 :: actions[k] == CallsNext)
    // and an exception is swallowed exactly when that filter threw
    ensures var r := FireFilters(actions, pos);
      r.swallowed <==> !r.terminalRan && actions[pos + |r.invoked| - 1] == Throws
  {
    if pos < |actions| && actions[pos] == CallsNext {
      ChainRules(actions, pos + 1);
    }
  }

  /** Prepending a filter that passes everything on changes nothing about
      whether the terminal action runs. */
  lemma {:induction false} TransparentFilter(actions: seq<FilterAction>)
    ensures FireFilters([CallsNext] + actions, 0).terminalRan == FireFilters(actions, 0).terminalRan
  {
    var longer := [CallsNext] + actions;
    var a, b := FireFilters(longer, 0), FireFilters(actions, 0);
    ChainRules(longer, 0);
    ChainRules(actions, 0);
    assert a.terminalRan <==> forall k | 0 <= k < |longer| :: longer[k] == CallsNext;
    assert b.terminalRan <==> forall k | 0 <= k < |actions| :: actions[k] == CallsNext;
    assert forall k | 0 <= k < |actions| :: longer[k + 1] == actions[k];
  }
}
