/** Header synchronisation: GetHeadersFromFork builds the peer's chain on top
    of a local tip from the headers messages it receives, and SynchronizeChain
    moves a chain's tip to the last header received once an untrusted peer's
    headers pass the height and proof-of-work checks. The received headers
    messages are an input sequence; running out of them is the cancelled wait. */
module ChainSync {
  import opened Payloads

  /** A ChainedBlock: a header and its height. The block with height 0 (the
      genesis block) has no previous block. */
  datatype ChainedBlock = ChainedBlock(header: BlockHeader, height: nat) {
    /** HashBlock */
    function Hash(): Hash {
      header.hash
    }
  }

  /** `new ChainedBlock(header, h, tip)`: the header on top of `tip`. */
  function OnTop(tip: ChainedBlock, header: BlockHeader): (b: ChainedBlock)
    ensures b.Hash() == header.hash && b.height == tip.height + 1
  {
    ChainedBlock(header, tip.height + 1)
  }

  /** The block whose locator a GetHeaders message carries: the tip's
      previous block, or the tip itself when it has none. */
  function AwaitedBase(tip: ChainedBlock): Hash {
    if tip.height == 0 then tip.Hash() else tip.header.hashPrevBlock
  }

  /** The blocks extend `tip` one at a time: each one's header names the hash
      of the block before it, and each is one higher. */
  ghost predicate Extends(tip: ChainedBlock, blocks: seq<ChainedBlock>) {
    forall i | 0 <= i < |blocks| :: Links(Before(tip, blocks, i), blocks[i])
  }

  /** `b`'s header names `prev` as its previous block, and `b` is one higher. */
  predicate Links(prev: ChainedBlock, b: ChainedBlock) {
    b.header.hashPrevBlock == prev.Hash() && b.height == prev.height + 1
  }

  /** The block before the `i`-th one: the tip for the first. */
  function Before(tip: ChainedBlock, blocks: seq<ChainedBlock>, i: nat): ChainedBlock
    requires i < |blocks|
  {
    if i == 0 then tip else blocks[i - 1]
  }

  function Last(tip: ChainedBlock, blocks: seq<ChainedBlock>): ChainedBlock {
    if blocks == [] then tip else blocks[|blocks| - 1]
  }

  // ---------------------------------------------------------------------------
  // One headers message (Node.cs:1069-1084)

  /** What the loop over one headers message produced: the blocks yielded,
      the tip reached, whether any header linked to the tip, and whether the
      tip reached the hash to stop at. */
  datatype ResponseRun = ResponseRun(yielded: seq<ChainedBlock>, tip: ChainedBlock, isOurs: bool, reachedStop: bool)

  /** The loop over the headers of one message, from `tip`: a header equal to
      the tip is skipped, a header on top of the tip becomes the new tip and is
      yielded (the sequence ends when that tip is `hashStop`), and any other
      header ends the loop. */
  function ProcessResponse(tip: ChainedBlock, headers: seq<BlockHeader>, hashStop: Option<Hash>): ResponseRun
    decreases |headers|
  {
    if headers == [] then ResponseRun([], tip, false, false)
    else if headers[0].hash == tip.Hash() then ProcessResponse(tip, headers[1..], hashStop)
    else if headers[0].hashPrevBlock == tip.Hash() then
      var next := OnTop(tip, headers[0]);
      if hashStop == Some(next.Hash()) then ResponseRun([next], next, true, true)
      else
        var rest := ProcessResponse(next, headers[1..], hashStop);
        ResponseRun([next] + rest.yielded, rest.tip, true, rest.reachedStop)
    else ResponseRun([], tip, false, false)
  }

  /** The yielded blocks extend the tip and end at the new tip; something was
      ours exactly when something was yielded. */
  lemma {:induction false} ResponseLinks(tip: ChainedBlock, headers: seq<BlockHeader>, hashStop: Option<Hash>)
    decreases |headers|
    ensures var r := ProcessResponse(tip, headers, hashStop);
      && Extends(tip, r.yielded)
      && r.tip == Last(tip, r.yielded)
      && r.tip.height == tip.height + |r.yielded|
      && (r.isOurs <==> r.yielded != [])
  {
    if headers == [] {
    } else if headers[0].hash == tip.Hash() {
      ResponseLinks(tip, headers[1..], hashStop);
    } else if headers[0].hashPrevBlock == tip.Hash() {
      var next := OnTop(tip, headers[0]);
      if hashStop != Some(next.Hash()) {
        ResponseLinks(next, headers[1..], hashStop);
        var rest := ProcessResponse(next, headers[1..], hashStop);
        ExtendsAppend(tip, [next], rest.yielded);
      }
    }
  }

  /** A stop is at `hashStop`, the last block yielded, and the only block
      yielded that is `hashStop` is the last one of a stop. */
  lemma {:induction false} ResponseStops(tip: ChainedBlock, headers: seq<BlockHeader>, hashStop: Option<Hash>)
    decreases |headers|
    ensures var r := ProcessResponse(tip, headers, hashStop);
      && (r.reachedStop ==> r.yielded != [] && hashStop == Some(r.yielded[|r.yielded| - 1].Hash()))
      && (forall i | 0 <= i < |r.yielded| && hashStop == Some(r.yielded[i].Hash()) :: r.reachedStop && i == |r.yielded| - 1)
  {
    if headers == [] {
    } else if headers[0].hash == tip.Hash() {
      ResponseStops(tip, headers[1..], hashStop);
    } else if headers[0].hashPrevBlock == tip.Hash() {
      var next := OnTop(tip, headers[0]);
      if hashStop != Some(next.Hash()) {
        ResponseStops(next, headers[1..], hashStop);
        var rest := ProcessResponse(next, headers[1..], hashStop);
        var ys := [next] + rest.yielded;
        assert forall i | 1 <= i < |ys| :: ys[i] == rest.yielded[i - 1];
      }
    }
  }

  /** Headers equal to the tip are skipped: a first header on top of the tip
      after any number of them starts the yielded blocks. */
  lemma {:induction false} TipEchoesSkipped(tip: ChainedBlock, echoes: seq<BlockHeader>, header: BlockHeader,
                                             rest: seq<BlockHeader>, hashStop: Option<Hash>)
    requires forall e | e in echoes :: e.hash == tip.Hash()
    requires header.hash != tip.Hash() && header.hashPrevBlock == tip.Hash()
    ensures var r := ProcessResponse(tip, echoes + [header] + rest, hashStop);
      r.isOurs && r.yielded != [] && r.yielded[0] == OnTop(tip, header)
    decreases |echoes|
  {
    if echoes == [] {
      assert echoes + [header] + rest == [header] + rest;
    } else {
      assert (echoes + [header] + rest)[1..] == echoes[1..] + [header] + rest;
      TipEchoesSkipped(tip, echoes[1..], header, rest, hashStop);
    }
  }

  /** The first header that is neither the tip nor on top of it ends the
      loop: nothing after it is looked at. */
  lemma {:induction false} ForeignHeaderEndsResponse(tip: ChainedBlock, echoes: seq<BlockHeader>, foreign: BlockHeader,
                                                      rest: seq<BlockHeader>, hashStop: Option<Hash>)
    requires forall e | e in echoes :: e.hash == tip.Hash()
    requires foreign.hash != tip.Hash() && foreign.hashPrevBlock != tip.Hash()
    ensures ProcessResponse(tip, echoes + [foreign] + rest, hashStop) == ResponseRun([], tip, false, false)
    decreases |echoes|
  {
    if echoes == [] {
      assert echoes + [foreign] + rest == [foreign] + rest;
    } else {
      assert (echoes + [foreign] + rest)[1..] == echoes[1..] + [foreign] + rest;
      ForeignHeaderEndsResponse(tip, echoes[1..], foreign, rest, hashStop);
    }
  }

  /** The run of a message whose first blocks `yielded` were already
      produced, followed by the run `rest` of its remaining headers. */
  function Resume(yielded: seq<ChainedBlock>, isOurs: bool, rest: ResponseRun): ResponseRun {
    ResponseRun(yielded + rest.yielded, rest.tip, isOurs || rest.isOurs, rest.reachedStop)
  }

  lemma ResumeOnTop(yielded: seq<ChainedBlock>, isOurs: bool, next: ChainedBlock, rest: ResponseRun)
    ensures Resume(yielded, isOurs, ResponseRun([next] + rest.yielded, rest.tip, true, rest.reachedStop))
         == Resume(yielded + [next], true, rest)
  {
    assert yielded + ([next] + rest.yielded) == yielded + [next] + rest.yielded;
  }

  /** The foreach over one headers message. */
  method ProcessHeaders(tip: ChainedBlock, headers: seq<BlockHeader>, hashStop: Option<Hash>) returns (r: ResponseRun)
    ensures r == ProcessResponse(tip, headers, hashStop)
  {
    var yielded: seq<ChainedBlock> := [];
    var currentTip := tip;
    var isOurs := false;
    var i := 0;
    while i < |headers|
      invariant 0 <= i <= |headers|
      invariant ProcessResponse(tip, headers, hashStop) == Resume(yielded, isOurs, ProcessResponse(currentTip, headers[i..], hashStop))
      decreases |headers| - i
    {
      assert headers[i..][1..] == headers[i + 1..];
      var header := headers[i];
      if header.hash == currentTip.Hash() {
        i := i + 1;
      } else if header.hashPrevBlock == currentTip.Hash() {
        var next := OnTop(currentTip, header);
        ResumeOnTop(yielded, isOurs, next, ProcessResponse(next, headers[i + 1..], hashStop));
        isOurs := true;
        currentTip := next;
        yielded := yielded + [currentTip];
        if hashStop == Some(currentTip.Hash()) {
          return ResponseRun(yielded, currentTip, true, true);
        }
        i := i + 1;
      } else {
        break;
      }
    }
    r := ResponseRun(yielded, currentTip, isOurs, false);
  }

  // ---------------------------------------------------------------------------
  // GetHeadersFromFork (Node.cs:1030-1091)

  /** How the sequence of headers ended: at `hashStop`, with an empty answer
      from a peer at height 0 while the tip is the genesis block, with a
      one-header answer equal to the tip, or with the wait cancelled. */
  datatype ForkEnd = ReachedStop | PeerAtGenesis | UpToDate | Cancelled

  /** The blocks yielded, the tip reached, the locator bases of the further
      GetHeaders messages sent, and how the sequence ended. */
  datatype ForkRun = ForkRun(yielded: seq<ChainedBlock>, tip: ChainedBlock, requests: seq<Hash>, end: ForkEnd)

  /** The receive loop over the headers messages, from `tip`: the two
      special answers end the sequence, every other message goes through the
      foreach, and a message with a header of ours makes the node ask again
      from the new tip. */
  function ForkFrom(tip: ChainedBlock, responses: seq<seq<BlockHeader>>, hashStop: Option<Hash>,
                    peerStartHeight: int, genesis: Hash): ForkRun
    decreases |responses|
  {
    if responses == [] then ForkRun([], tip, [], Cancelled)
    else
      var headers := responses[0];
      if |headers| == 0 && peerStartHeight == 0 && tip.Hash() == genesis then ForkRun([], tip, [], PeerAtGenesis)
      else if |headers| == 1 && headers[0].hash == tip.Hash() then ForkRun([], tip, [], UpToDate)
      else
        var r := ProcessResponse(tip, headers, hashStop);
        if r.reachedStop then ForkRun(r.yielded, r.tip, [], ReachedStop)
        else
          var rest := ForkFrom(r.tip, responses[1..], hashStop, peerStartHeight, genesis);
          ForkRun(r.yielded + rest.yielded, rest.tip,
                  (if r.isOurs then [AwaitedBase(r.tip)] else []) + rest.requests, rest.end)
  }

  lemma ExtendsAppend(tip: ChainedBlock, xs: seq<ChainedBlock>, ys: seq<ChainedBlock>)
    requires Extends(tip, xs) && Extends(Last(tip, xs), ys)
    ensures Extends(tip, xs + ys) && Last(tip, xs + ys) == Last(Last(tip, xs), ys)
  {
    var zs := xs + ys;
    forall i | 0 <= i < |zs|
      ensures Links(Before(tip, zs, i), zs[i])
    {
      if i < |xs| {
        BeforeInFirst(tip, xs, ys, i);
      } else {
        BeforeInSecond(tip, xs, ys, i - |xs|);
      }
    }
  }

  lemma BeforeInFirst(tip: ChainedBlock, xs: seq<ChainedBlock>, ys: seq<ChainedBlock>, i: nat)
    requires i < |xs|
    ensures (xs + ys)[i] == xs[i] && Before(tip, xs + ys, i) == Before(tip, xs, i)
  {
  }

  lemma BeforeInSecond(tip: ChainedBlock, xs: seq<ChainedBlock>, ys: seq<ChainedBlock>, k: nat)
    requires k < |ys|
    ensures (xs + ys)[|xs| + k] == ys[k] && Before(tip, xs + ys, |xs| + k) == Before(Last(tip, xs), ys, k)
  {
  }

  /** Every block GetHeadersFromFork yields sits on top of the one before it,
      the first on the tip it started from; the last one is the tip reached;
      a sequence ending at the stop ends with the `hashStop` block. */
  lemma {:induction false} ForkLinks(tip: ChainedBlock, responses: seq<seq<BlockHeader>>, hashStop: Option<Hash>,
                                      peerStartHeight: int, genesis: Hash)
    decreases |responses|
    ensures var run := ForkFrom(tip, responses, hashStop, peerStartHeight, genesis);
      && Extends(tip, run.yielded)
      && run.tip == Last(tip, run.yielded)
      && run.tip.height == tip.height + |run.yielded|
      && (run.end == ReachedStop ==> run.yielded != [] && hashStop == Some(run.tip.Hash()))
  {
    if responses != [] {
      var headers := responses[0];
      if !(|headers| == 0 && peerStartHeight == 0 && tip.Hash() == genesis) && !(|headers| == 1 && headers[0].hash == tip.Hash()) {
        var r := ProcessResponse(tip, headers, hashStop);
        ResponseLinks(tip, headers, hashStop);
        ResponseStops(tip, headers, hashStop);
        if !r.reachedStop {
          ForkLinks(r.tip, responses[1..], hashStop, peerStartHeight, genesis);
          var rest := ForkFrom(r.tip, responses[1..], hashStop, peerStartHeight, genesis);
          ExtendsAppend(tip, r.yielded, rest.yielded);
        }
      }
    }
  }

  /** No block of `blocks` but possibly the last is the `hashStop` block. */
  predicate StopOnlyLast(blocks: seq<ChainedBlock>, hashStop: Option<Hash>) {
    forall i | 0 <= i < |blocks| - 1 :: hashStop != Some(blocks[i].Hash())
  }

  lemma StopOnlyLastAppend(xs: seq<ChainedBlock>, ys: seq<ChainedBlock>, hashStop: Option<Hash>)
    requires forall i | 0 <= i < |xs| :: hashStop != Some(xs[i].Hash())
    requires StopOnlyLast(ys, hashStop)
    ensures StopOnlyLast(xs + ys, hashStop)
  {
    var zs := xs + ys;
    forall i | 0 <= i < |zs| - 1 ensures hashStop != Some(zs[i].Hash()) {
      if i < |xs| {
        assert zs[i] == xs[i];
      } else {
        assert zs[i] == ys[i - |xs|];
      }
    }
  }

  /** Across all messages, no yielded block but the last is the `hashStop`
      block, and the last one is only when the run reached the stop. */
  lemma {:induction false} ForkStopsLast(tip: ChainedBlock, responses: seq<seq<BlockHeader>>, hashStop: Option<Hash>,
                                         peerStartHeight: int, genesis: Hash)
    decreases |responses|
    ensures var run := ForkFrom(tip, responses, hashStop, peerStartHeight, genesis);
      && StopOnlyLast(run.yielded, hashStop)
      && (run.yielded != [] && hashStop == Some(run.tip.Hash()) ==> run.end == ReachedStop)
  {
    if responses != [] {
      var headers := responses[0];
      if !(|headers| == 0 && peerStartHeight == 0 && tip.Hash() == genesis) && !(|headers| == 1 && headers[0].hash == tip.Hash()) {
        var r := ProcessResponse(tip, headers, hashStop);
        ResponseStops(tip, headers, hashStop);
        ResponseLinks(tip, headers, hashStop);
        if !r.reachedStop {
          ForkStopsLast(r.tip, responses[1..], hashStop, peerStartHeight, genesis);
          ForkLinks(r.tip, responses[1..], hashStop, peerStartHeight, genesis);
          var rest := ForkFrom(r.tip, responses[1..], hashStop, peerStartHeight, genesis);
          StopOnlyLastAppend(r.yielded, rest.yielded, hashStop);
        }
      }
    }
  }

  /** A receive loop that already yielded `yielded` and sent `requests`,
      followed by the run `rest` of the remaining messages. */
  function ResumeFork(yielded: seq<ChainedBlock>, requests: seq<Hash>, rest: ForkRun): ForkRun {
    ForkRun(yielded + rest.yielded, rest.tip, requests + rest.requests, rest.end)
  }

  lemma ResumeAfterMessage(yielded: seq<ChainedBlock>, requests: seq<Hash>, got: seq<ChainedBlock>, asked: seq<Hash>, rest: ForkRun)
    ensures ResumeFork(yielded, requests, ForkRun(got + rest.yielded, rest.tip, asked + rest.requests, rest.end))
         == ResumeFork(yielded + got, requests + asked, rest)
  {
    assert yielded + (got + rest.yielded) == yielded + got + rest.yielded;
    assert requests + (asked + rest.requests) == requests + asked + rest.requests;
  }

  /** GetHeadersFromFork over the headers messages received: the first
      GetHeaders is sent from the starting tip, then the receive loop runs. */
  method GetHeadersFromFork(tip: ChainedBlock, responses: seq<seq<BlockHeader>>, hashStop: Option<Hash>,
                            peerStartHeight: int, genesis: Hash) returns (run: ForkRun)
    ensures var spec := ForkFrom(tip, responses, hashStop, peerStartHeight, genesis);
      run == ForkRun(spec.yielded, spec.tip, [AwaitedBase(tip)] + spec.requests, spec.end)
  {
    var yielded: seq<ChainedBlock> := [];
    var requests := [AwaitedBase(tip)];
    var currentTip := tip;
    var i := 0;
    ghost var spec := ForkFrom(tip, responses, hashStop, peerStartHeight, genesis);
    assert [] + spec.yielded == spec.yielded;
    while i < |responses|
      invariant 0 <= i <= |responses|
      invariant ResumeFork([], [AwaitedBase(tip)], spec)
             == ResumeFork(yielded, requests, ForkFrom(currentTip, responses[i..], hashStop, peerStartHeight, genesis))
      decreases |responses| - i
    {
      assert responses[i..][1..] == responses[i + 1..];
      var headers := responses[i];
      if |headers| == 0 && peerStartHeight == 0 && currentTip.Hash() == genesis {
        return ForkRun(yielded, currentTip, requests, PeerAtGenesis);
      }
      if |headers| == 1 && headers[0].hash == currentTip.Hash() {
        return ForkRun(yielded, currentTip, requests, UpToDate);
      }
      var r := ProcessHeaders(currentTip, headers, hashStop);
      if r.reachedStop {
        return ForkRun(yielded + r.yielded, r.tip, requests, ReachedStop);
      }
      var asked := if r.isOurs then [AwaitedBase(r.tip)] else [];
      ResumeAfterMessage(yielded, requests, r.yielded, asked,
                         ForkFrom(r.tip, responses[i + 1..], hashStop, peerStartHeight, genesis));
      yielded := yielded + r.yielded;
      requests := requests + asked;
      currentTip := r.tip;
      i := i + 1;
    }
    run := ForkRun(yielded, currentTip, requests, Cancelled);
  }

  // ---------------------------------------------------------------------------
  // SynchronizeChain (Node.cs:1100-1119)

  /** The message of the ProtocolException thrown for a header that fails
      the proof-of-work check. */
  const ProofOfWorkMessage := "An header which does not pass proof of work verificaiton has been received"

  /** How SynchronizeChain ends: the headers it returns, or the exception it
      throws (the cancelled wait, or a ProtocolException with its message). */
  datatype SyncResult = Synced(headers: seq<ChainedBlock>) | SyncCancelled | SyncRejected(message: string)

  /** The untrusted-peer height check of SynchronizeChain never throws: the
      last header of a non-empty fork is higher than the tip the fork was
      built on. */
  lemma TipCheckNeverFires(oldTip: ChainedBlock, responses: seq<seq<BlockHeader>>, hashStop: Option<Hash>,
                           peerStartHeight: int, genesis: Hash)
    ensures var fork := ForkFrom(oldTip, responses, hashStop, peerStartHeight, genesis);
      fork.yielded != [] ==> fork.yielded[|fork.yielded| - 1].height > oldTip.height
  {
    ForkLinks(oldTip, responses, hashStop, peerStartHeight, genesis);
  }

  /** The proof-of-work loop of SynchronizeChain: it stops at the first
      header that fails `validate`. */
  method AllValid(headers: seq<ChainedBlock>, validate: ChainedBlock -> bool) returns (valid: bool)
    ensures valid <==> forall b | b in headers :: validate(b)
  {
    for i := 0 to |headers|
      invariant forall j | 0 <= j < i :: validate(headers[j])
    {
      if !validate(headers[i]) {
        return false;
      }
    }
    return true;
  }

  /** SynchronizeChain: all the headers from the fork are collected; with
      none, nothing happens. Otherwise, for an untrusted peer, the new tip
      must be higher than the old one and every header must pass `validate`
      (the proof-of-work check) before the tip is set. `chainTip` is the
      chain's tip afterwards. */
  method SynchronizeChain(oldTip: ChainedBlock, responses: seq<seq<BlockHeader>>, hashStop: Option<Hash>,
                          peerStartHeight: int, genesis: Hash, isTrusted: bool, validate: ChainedBlock -> bool)
    returns (chainTip: ChainedBlock, result: SyncResult)
    ensures var fork := ForkFrom(oldTip, responses, hashStop, peerStartHeight, genesis);
      && (result == SyncCancelled <==> fork.end == Cancelled)
      && (result.Synced? ==> result.headers == fork.yielded && Extends(oldTip, result.headers))
      && (result.SyncRejected? <==> fork.end != Cancelled && !isTrusted && exists b | b in fork.yielded :: !validate(b))
      && (result.SyncRejected? ==> result.message == ProofOfWorkMessage)
    // the tip moves only on success, to the last header, and for an untrusted
    // peer only to a higher tip whose every header passed the check
    ensures chainTip != oldTip ==> result.Synced?
    ensures result.Synced? ==> chainTip == Last(oldTip, result.headers)
    ensures result.Synced? && !isTrusted ==>
      (forall b | b in result.headers :: validate(b)) && (result.headers != [] ==> chainTip.height > oldTip.height)
  {
    chainTip := oldTip;
    var fork := GetHeadersFromFork(oldTip, responses, hashStop, peerStartHeight, genesis);
    ForkLinks(oldTip, responses, hashStop, peerStartHeight, genesis);
    if fork.end == Cancelled {
      return chainTip, SyncCancelled;
    }
    var headers := fork.yielded;
    if |headers| == 0 {
      return chainTip, Synced([]);
    }
    var newTip := headers[|headers| - 1];
    if !isTrusted {
      // "No tip should have been recieved older than the local one" is never
      // thrown: the fork is built on the old tip
      TipCheckNeverFires(oldTip, responses, hashStop, peerStartHeight, genesis);
      assert newTip.height > oldTip.height;
      var valid := AllValid(headers, validate);
      if !valid {
        return chainTip, SyncRejected(ProofOfWorkMessage);
      }
    }
    chainTip := newTip;
    result := Synced(headers);
  }
}
