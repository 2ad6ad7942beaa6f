/** Block retrieval (GetBlocks over a sequence of block hashes): the hashes
    are requested in batches whose size adapts to how far the listener falls
    behind, and within a batch blocks are yielded strictly in request order.
    What the peer sends is an input sequence of arrivals; running out of them
    is the cancelled wait. */
module BlockRetrieval {
  import opened Payloads

  const InitialBatchSize := 70
  const MinBatchSize := 10
  const MaxBatchSize := 10000
  /** Below this many messages waiting in the listener the peer keeps up. */
  const CongestionThreshold := 10

  function Min(a: int, b: int): int { if a <= b then a else b }
  function Max(a: int, b: int): int { if a >= b then a else b }

  /** The size update after each batch (Node.cs:1192-1197): doubled when at
      most 9 messages ever waited in the listener during the batch, halved
      otherwise, then clamped to [10, 10000]. */
  function NextBatchSize(size: nat, maxQueued: nat): (r: nat)
    ensures MinBatchSize <= r <= MaxBatchSize
  {
    var s := if maxQueued < CongestionThreshold then size * 2 else size / 2;
    Min(MaxBatchSize, Max(MinBatchSize, s))
  }

  /** From any size in range, a batch without congestion doubles the size up
      to the ceiling, and a congested one halves it down to the floor. */
  lemma BatchSizeAdapts(size: nat, maxQueued: nat)
    requires MinBatchSize <= size <= MaxBatchSize
    ensures maxQueued < CongestionThreshold ==>
      NextBatchSize(size, maxQueued) == Min(MaxBatchSize, 2 * size) >= size
    ensures maxQueued >= CongestionThreshold ==>
      NextBatchSize(size, maxQueued) == Max(MinBatchSize, size / 2) <= size
  {
  }

  function Pow2(k: nat): nat {
    if k == 0 then 1 else 2 * Pow2(k - 1)
  }

  /** The size after `k` batches that were never congested. */
  function SizeAfterUncongested(k: nat): nat {
    if k == 0 then InitialBatchSize else NextBatchSize(SizeAfterUncongested(k - 1), 0)
  }

  /** Without congestion the size grows from 70 as 70 * 2^k until it reaches
      10000 and stays there. */
  lemma {:induction false} UncongestedGrowth(k: nat)
    ensures SizeAfterUncongested(k) == Min(MaxBatchSize, InitialBatchSize * Pow2(k))
  {
    if k > 0 {
      UncongestedGrowth(k - 1);
      assert Pow2(k) == 2 * Pow2(k - 1);
    }
  }

  // ---------------------------------------------------------------------------
  // One batch (Node.cs:1178-1191)

  /** A block payload taken from the listener: its hash (GetHash) and the
      number of messages still waiting in the listener's queue. */
  datatype Arrival = Arrival(block: Hash, backlog: nat)

  /** How the drain of one batch ended: how many requested blocks were
      dequeued, the position of the next arrival, the largest backlog seen,
      and whether the queue of remaining hashes emptied. */
  datatype DrainRun = DrainRun(taken: nat, next: nat, peak: nat, complete: bool)

  /** The drain of the remaining hashes, taking arrivals from `next`: a block
      that is the head of the queue is dequeued and yielded, any other block
      is discarded; the wait is cancelled when the arrivals run out first. */
  function Drain(remaining: seq<Hash>, arrivals: seq<Arrival>, next: nat, peak: nat): DrainRun
    requires next <= |arrivals|
    decreases |arrivals| - next
  {
    if remaining == [] then DrainRun(0, next, peak, true)
    else if next == |arrivals| then DrainRun(0, next, peak, false)
    else
      var a := arrivals[next];
      var p := Max(a.backlog, peak);
      if a.block == remaining[0] then
        var rest := Drain(remaining[1..], arrivals, next + 1, p);
        DrainRun(rest.taken + 1, rest.next, rest.peak, rest.complete)
      else Drain(remaining, arrivals, next + 1, p)
  }

  /** The largest backlog among the arrivals in [from, to), or `peak` when
      that is larger. */
  function PeakBacklog(arrivals: seq<Arrival>, from: nat, to: nat, peak: nat): nat
    requires from <= to <= |arrivals|
    decreases |arrivals| - from
  {
    if from == to then peak else PeakBacklog(arrivals, from + 1, to, Max(arrivals[from].backlog, peak))
  }

  /** What a drain consumes: the dequeued blocks are a prefix of the queue
      and each of them arrived; the batch completes exactly when all of them
      were dequeued; only a wait cut short by running out of arrivals leaves
      the batch incomplete; the peak is the largest backlog seen. */
  lemma {:induction false} DrainFacts(remaining: seq<Hash>, arrivals: seq<Arrival>, next: nat, peak: nat)
    requires next <= |arrivals|
    decreases |arrivals| - next
    ensures var d := Drain(remaining, arrivals, next, peak);
      && next <= d.next <= |arrivals|
      && d.taken <= |remaining|
      && (d.complete <==> d.taken == |remaining|)
      && (!d.complete ==> d.next == |arrivals|)
      && (forall j | 0 <= j < d.taken :: exists k | next <= k < d.next :: arrivals[k].block == remaining[j])
      && d.peak == PeakBacklog(arrivals, next, d.next, peak)
  {
    if remaining != [] && next < |arrivals| {
      var a := arrivals[next];
      var p := Max(a.backlog, peak);
      if a.block == remaining[0] {
        DrainFacts(remaining[1..], arrivals, next + 1, p);
        var rest := Drain(remaining[1..], arrivals, next + 1, p);
        forall j | 0 <= j < rest.taken + 1
          ensures exists k | next <= k < rest.next :: arrivals[k].block == remaining[j]
        {
          if j == 0 {
            assert arrivals[next].block == remaining[0];
          } else {
            assert remaining[1..][j - 1] == remaining[j];
          }
        }
      } else {
        DrainFacts(remaining, arrivals, next + 1, p);
      }
    }
  }

  /** The position of the first arrival of block `h` at or after `from`,
      or the end of the arrivals when it never comes. */
  function FirstArrival(arrivals: seq<Arrival>, from: nat, h: Hash): (k: nat)
    requires from <= |arrivals|
    decreases |arrivals| - from
    ensures from <= k <= |arrivals|
    ensures k < |arrivals| ==> arrivals[k].block == h
    ensures forall p | from <= p < k :: arrivals[p].block != h
  {
    if from == |arrivals| then from
    else if arrivals[from].block == h then from
    else FirstArrival(arrivals, from + 1, h)
  }

  /** The positions a drain ought to dequeue: the first arrival of the head
      of the queue, then the first arrival of the next hash after that one,
      and so on until a hash never arrives. */
  function Matches(remaining: seq<Hash>, arrivals: seq<Arrival>, from: nat): (ks: seq<nat>)
    requires from <= |arrivals|
    decreases |remaining|
    ensures |ks| <= |remaining|
    ensures forall j | 0 <= j < |ks| :: from <= ks[j] < |arrivals| && arrivals[ks[j]].block == remaining[j]
    ensures forall j | 0 < j < |ks| :: ks[j - 1] < ks[j]
  {
    if remaining == [] then []
    else
      var k := FirstArrival(arrivals, from, remaining[0]);
      if k == |arrivals| then [] else [k] + Matches(remaining[1..], arrivals, k + 1)
  }

  /** Where the search resumes after the matches `ks` made from `from`. */
  function Resume(from: nat, ks: seq<nat>): nat {
    if ks == [] then from else ks[|ks| - 1] + 1
  }

  /** The drain dequeues exactly the first arrivals Matches names, in
      order, and discards every other arrival it reads: it takes one block
      per match, completes exactly when every hash was matched, stopping
      just past the last match, and otherwise reads to the end of the
      arrivals. */
  lemma {:induction false} DrainFindsFirstArrivals(remaining: seq<Hash>, arrivals: seq<Arrival>, next: nat, peak: nat)
    requires next <= |arrivals|
    decreases |arrivals| - next
    ensures var d, ks := Drain(remaining, arrivals, next, peak), Matches(remaining, arrivals, next);
      && d.taken == |ks|
      && (d.complete <==> |ks| == |remaining|)
      && d.next == if d.complete then Resume(next, ks) else |arrivals|
  {
    if remaining != [] && next < |arrivals| {
      var p := Max(arrivals[next].backlog, peak);
      if arrivals[next].block == remaining[0] {
        DrainFindsFirstArrivals(remaining[1..], arrivals, next + 1, p);
        var ks := Matches(remaining[1..], arrivals, next + 1);
        assert Matches(remaining, arrivals, next) == [next] + ks;
        assert Resume(next, [next] + ks) == Resume(next + 1, ks);
      } else {
        DrainFindsFirstArrivals(remaining, arrivals, next + 1, p);
        assert Matches(remaining, arrivals, next) == Matches(remaining, arrivals, next + 1);
      }
    }
  }

  /** The arrivals from `next` on begin with exactly the blocks `hashes`, in
      order. */
  predicate SendsInOrder(arrivals: seq<Arrival>, next: nat, hashes: seq<Hash>) {
    next + |hashes| <= |arrivals| && forall j | 0 <= j < |hashes| :: arrivals[next + j].block == hashes[j]
  }

  /** A peer that sends exactly the requested blocks, in order, completes the
      batch with nothing discarded. */
  lemma {:induction false} FaithfulPeerCompletes(remaining: seq<Hash>, arrivals: seq<Arrival>, next: nat, peak: nat)
    requires SendsInOrder(arrivals, next, remaining)
    ensures var d := Drain(remaining, arrivals, next, peak);
      d.complete && d.taken == |remaining| && d.next == next + |remaining|
    decreases |remaining|
  {
    if remaining != [] {
      assert arrivals[next].block == remaining[0];
      forall j | 0 <= j < |remaining| - 1 ensures arrivals[next + 1 + j].block == remaining[1..][j] {
        assert arrivals[next + (j + 1)].block == remaining[j + 1];
      }
      FaithfulPeerCompletes(remaining[1..], arrivals, next + 1, Max(arrivals[next].backlog, peak));
    }
  }

  /** The `while(remaining.Count != 0)` loop of one batch: the blocks it
      yields, the next arrival, the largest backlog, and whether it
      completed. */
  method DrainBatch(batch: seq<Hash>, arrivals: seq<Arrival>, next: nat) returns (got: seq<Hash>, after: nat, maxQueued: nat, complete: bool)
    requires next <= |arrivals|
    ensures var d := Drain(batch, arrivals, next, 0);
      && d.taken <= |batch| && got == batch[..d.taken]
      && after == d.next && maxQueued == d.peak && complete == d.complete
    ensures next <= after <= |arrivals| && (complete <==> got == batch)
  {
    var remaining := batch;
    got := [];
    after := next;
    maxQueued := 0;
    while remaining != []
      invariant next <= after <= |arrivals|
      invariant |got| + |remaining| == |batch| && batch == got + remaining
      invariant Drain(batch, arrivals, next, 0) ==
        var rest := Drain(remaining, arrivals, after, maxQueued);
        DrainRun(|got| + rest.taken, rest.next, rest.peak, rest.complete)
      decreases |arrivals| - after
    {
      if after == |arrivals| {
        assert got == batch[..|got|];
        DrainFacts(batch, arrivals, next, 0);
        return got, after, maxQueued, false;
      }
      var a := arrivals[after];
      after := after + 1;
      maxQueued := Max(a.backlog, maxQueued);
      if remaining[0] == a.block {
        got := got + [remaining[0]];
        remaining := remaining[1..];
      }
    }
    assert got == batch[..|got|];
    DrainFacts(batch, arrivals, next, 0);
    complete := true;
  }

  // ---------------------------------------------------------------------------
  // The batches (Node.cs:1165-1197)

  function Concat(bs: seq<seq<Hash>>): seq<Hash> {
    if bs == [] then [] else Concat(bs[..|bs| - 1]) + bs[|bs| - 1]
  }

  lemma ConcatAppend(bs: seq<seq<Hash>>, b: seq<Hash>)
    ensures Concat(bs + [b]) == Concat(bs) + b
  {
    assert (bs + [b])[..|bs|] == bs;
  }

  /** The batches are consecutive, non-empty slices from the start of
      `needed`, each cut with its own size: as large as the size, except
      that the batch which reaches the end of `needed` may be shorter. */
  ghost predicate Slices(needed: seq<Hash>, batches: seq<seq<Hash>>, sizes: seq<nat>) {
    && |sizes| == |batches|
    && |Concat(batches)| <= |needed| && Concat(batches) == needed[..|Concat(batches)|]
    && (forall i | 0 <= i < |batches| :: 0 < |batches[i]| <= sizes[i])
    && (forall i | 0 <= i < |batches| - 1 :: |batches[i]| == sizes[i])
    && (batches != [] && |Concat(batches)| < |needed| ==> |batches[|batches| - 1]| == sizes[|sizes| - 1])
  }

  /** The sizes start at 70, each later one is the update of the one before
      by the largest backlog of that batch, and all lie in [10, 10000]. */
  ghost predicate SizesFollowRule(sizes: seq<nat>, peaks: seq<nat>) {
    && |sizes| <= |peaks| + 1
    && (sizes != [] ==> sizes[0] == InitialBatchSize)
    && (forall i | 0 <= i < |sizes| - 1 :: sizes[i + 1] == NextBatchSize(sizes[i], peaks[i]))
    && (forall i | 0 <= i < |sizes| :: MinBatchSize <= sizes[i] <= MaxBatchSize)
  }

  /** Sizes that follow the rule through batches that were never congested
      are 70, 140, 280, ... capped at 10000. */
  lemma {:induction false} UncongestedSizes(sizes: seq<nat>, peaks: seq<nat>)
    requires SizesFollowRule(sizes, peaks)
    requires forall i | 0 <= i < |sizes| - 1 :: peaks[i] < CongestionThreshold
    ensures forall k | 0 <= k < |sizes| :: sizes[k] == Min(MaxBatchSize, InitialBatchSize * Pow2(k))
  {
    forall k | 0 <= k < |sizes| ensures sizes[k] == Min(MaxBatchSize, InitialBatchSize * Pow2(k)) {
      UncongestedPrefix(sizes, peaks, k);
      UncongestedGrowth(k);
    }
  }

  lemma {:induction false} UncongestedPrefix(sizes: seq<nat>, peaks: seq<nat>, k: nat)
    requires SizesFollowRule(sizes, peaks) && k < |sizes|
    requires forall i | 0 <= i < |sizes| - 1 :: peaks[i] < CongestionThreshold
    ensures sizes[k] == SizeAfterUncongested(k)
  {
    if k > 0 {
      UncongestedPrefix(sizes, peaks, k - 1);
      assert sizes[k] == NextBatchSize(sizes[k - 1], peaks[k - 1]);
    }
  }

  lemma RulePrefix(sizes: seq<nat>, next: nat, peaks: seq<nat>)
    requires SizesFollowRule(sizes + [next], peaks)
    ensures SizesFollowRule(sizes, peaks)
  {
    assert forall i | 0 <= i < |sizes| :: (sizes + [next])[i] == sizes[i];
  }

  /** Cutting the next batch of `size` hashes keeps the batches consecutive
      slices. */
  lemma SlicesGrow(needed: seq<Hash>, batches: seq<seq<Hash>>, sizes: seq<nat>, size: nat)
    requires Slices(needed, batches, sizes) && |Concat(batches)| < |needed| && size > 0
    ensures var pos := |Concat(batches)|;
      var end := Min(pos + size, |needed|);
      && Slices(needed, batches + [needed[pos..end]], sizes + [size])
      && |Concat(batches + [needed[pos..end]])| == end
  {
    var pos := |Concat(batches)|;
    var end := Min(pos + size, |needed|);
    var batch := needed[pos..end];
    PrefixGrows(needed, batches, batch, pos, end);
    SizedGrow(batches, sizes, batch, size, |needed|);
    var bs, ss := batches + [batch], sizes + [size];
    assert bs[|bs| - 1] == batch && ss[|ss| - 1] == size;
    assert end < |needed| ==> |batch| == size;
  }

  lemma PrefixGrows(needed: seq<Hash>, batches: seq<seq<Hash>>, batch: seq<Hash>, pos: nat, end: nat)
    requires pos == |Concat(batches)| && pos <= end <= |needed|
    requires Concat(batches) == needed[..pos] && batch == needed[pos..end]
    ensures Concat(batches + [batch]) == needed[..end] && |Concat(batches + [batch])| == end
  {
    ConcatAppend(batches, batch);
    assert needed[..end] == needed[..pos] + batch;
  }

  lemma SizedGrow(batches: seq<seq<Hash>>, sizes: seq<nat>, batch: seq<Hash>, size: nat, total: nat)
    requires |sizes| == |batches| && 0 < |batch| <= size
    requires forall i | 0 <= i < |batches| :: 0 < |batches[i]| <= sizes[i]
    requires forall i | 0 <= i < |batches| - 1 :: |batches[i]| == sizes[i]
    requires batches != [] ==> |batches[|batches| - 1]| == sizes[|sizes| - 1]
    ensures var bs, ss := batches + [batch], sizes + [size];
      && (forall i | 0 <= i < |bs| :: 0 < |bs[i]| <= ss[i])
      && (forall i | 0 <= i < |bs| - 1 :: |bs[i]| == ss[i])
  {
    var bs, ss := batches + [batch], sizes + [size];
    assert forall i | 0 <= i < |batches| :: bs[i] == batches[i] && ss[i] == sizes[i];
  }

  /** Updating the size by the peak backlog of the batch just drained keeps
      the sizes following the rule. */
  lemma RuleGrows(sizes: seq<nat>, size: nat, peaks: seq<nat>, peak: nat)
    requires SizesFollowRule(sizes + [size], peaks) && |peaks| == |sizes|
    ensures SizesFollowRule(sizes + [size] + [NextBatchSize(size, peak)], peaks + [peak])
  {
    var ss, ps := sizes + [size] + [NextBatchSize(size, peak)], peaks + [peak];
    assert forall i | 0 <= i <= |sizes| :: ss[i] == (sizes + [size])[i];
    assert forall i | 0 <= i < |sizes| :: ps[i] == peaks[i];
  }

  /** What GetBlocks has done between two batches: every batch so far was
      drained completely, so exactly the hashes cut so far were yielded, in
      order; `size` is the size the next batch will be cut with. */
  ghost predicate Progressing(needed: seq<Hash>, yielded: seq<Hash>, batches: seq<seq<Hash>>, sizes: seq<nat>, peaks: seq<nat>, size: nat) {
    && Slices(needed, batches, sizes)
    && yielded == needed[..|Concat(batches)|]
    && |peaks| == |sizes|
    && SizesFollowRule(sizes + [size], peaks)
    && size >= MinBatchSize
  }

  /** The outcome of GetBlocks. Blocks come back strictly in the requested
      order; the batches are consecutive slices cut with sizes that follow
      the update rule; a completed retrieval yielded every needed block, one
      peak per batch; a cancelled one was cut short in its last batch, whose
      backlog peak is not recorded. */
  ghost predicate Retrieval(needed: seq<Hash>, yielded: seq<Hash>, batches: seq<seq<Hash>>, sizes: seq<nat>, peaks: seq<nat>, completed: bool) {
    && |yielded| <= |needed| && yielded == needed[..|yielded|]
    && Slices(needed, batches, sizes)
    && SizesFollowRule(sizes, peaks)
    && (completed ==> yielded == needed && Concat(batches) == needed && |peaks| == |batches|)
    && (!completed ==>
          && batches != [] && |peaks| == |batches| - 1
          && |Concat(batches)| - |batches[|batches| - 1]| <= |yielded| < |Concat(batches)|)
  }

  /** One round: the next batch is cut at the end of what was yielded; a
      batch drained completely keeps the retrieval progressing with the
      updated size, one drained only partly ends it cancelled. */
  lemma RoundStep(needed: seq<Hash>, yielded: seq<Hash>, batches: seq<seq<Hash>>, sizes: seq<nat>, peaks: seq<nat>, size: nat,
                  batch: seq<Hash>, got: seq<Hash>, peak: nat)
    requires Progressing(needed, yielded, batches, sizes, peaks, size) && |yielded| < |needed|
    requires batch == needed[|yielded|..Min(|yielded| + size, |needed|)]
    requires |got| <= |batch| && got == batch[..|got|]
    ensures got == batch ==>
      && Progressing(needed, yielded + got, batches + [batch], sizes + [size], peaks + [peak], NextBatchSize(size, peak))
      && |yielded + got| > |yielded|
    ensures got != batch ==> Retrieval(needed, yielded + got, batches + [batch], sizes + [size], peaks, false)
  {
    var pos := |yielded|;
    SlicesGrow(needed, batches, sizes, size);
    assert needed[..pos] + got == needed[..pos + |got|];
    if got == batch {
      RuleGrows(sizes, size, peaks, peak);
    }
  }

  /** Once every needed hash has been cut and drained, the retrieval is
      complete. */
  lemma Finished(needed: seq<Hash>, yielded: seq<Hash>, batches: seq<seq<Hash>>, sizes: seq<nat>, peaks: seq<nat>, size: nat)
    requires Progressing(needed, yielded, batches, sizes, peaks, size) && |yielded| >= |needed|
    ensures Retrieval(needed, yielded, batches, sizes, peaks, true)
  {
    RulePrefix(sizes, size, peaks);
    assert needed[..|needed|] == needed;
  }

  /** A peer sending all of `needed` in order sends each batch in order, from
      the position of the batch's first hash. */
  lemma FaithfulSuffix(arrivals: seq<Arrival>, needed: seq<Hash>, pos: nat, batch: seq<Hash>)
    requires SendsInOrder(arrivals, 0, needed)
    requires pos + |batch| <= |needed| && batch == needed[pos..pos + |batch|]
    ensures SendsInOrder(arrivals, pos, batch)
  {
    assert forall j | 0 <= j < |batch| :: batch[j] == needed[pos + j] && arrivals[0 + (pos + j)].block == needed[pos + j];
  }

  /** One round of GetBlocks: the next `size` needed hashes from `pos` are
      requested and drained; what it yields is a prefix of the batch, all of
      it exactly when the drain completed. */
  method FetchBatch(needed: seq<Hash>, arrivals: seq<Arrival>, pos: nat, next: nat, size: nat)
    returns (batch: seq<Hash>, got: seq<Hash>, after: nat, maxQueued: nat, complete: bool)
    requires pos <= |needed| && next <= |arrivals|
    ensures batch == needed[pos..Min(pos + size, |needed|)]
    ensures var d := Drain(batch, arrivals, next, 0);
      && d.taken <= |batch| && got == batch[..d.taken]
      && after == d.next && maxQueued == d.peak && complete == d.complete
    ensures (complete <==> got == batch) && (!complete ==> after == |arrivals|)
    ensures next <= after <= |arrivals|
    ensures complete ==> DrainedWhole(arrivals, batch, next, after, maxQueued)
    // a peer that answers with exactly the batch, in order, completes it
    ensures SendsInOrder(arrivals, next, batch) ==> complete && after == next + |batch|
  {
    batch := needed[pos..Min(pos + size, |needed|)];
    got, after, maxQueued, complete := DrainBatch(batch, arrivals, next);
    DrainFacts(batch, arrivals, next, 0);
    if SendsInOrder(arrivals, next, batch) {
      FaithfulPeerCompletes(batch, arrivals, next, 0);
    }
  }

  /** The drain of `batch` from `start` dequeued all of it, stopping at
      `end`, with largest backlog `peak`. */
  predicate DrainedWhole(arrivals: seq<Arrival>, batch: seq<Hash>, start: nat, end: nat, peak: nat) {
    start <= |arrivals| && Drain(batch, arrivals, start, 0) == DrainRun(|batch|, end, peak, true)
  }

  /** The batches were drained from the arrivals one after the other, the
      `i`-th from position `starts[i]`: each completed batch was drained
      from where the one before stopped, to where the next one starts, with
      the peak recorded for it; the last batch of a cancelled retrieval ran
      out of arrivals, yielding only what its drain took. */
  ghost predicate DrainedInTurn(arrivals: seq<Arrival>, batches: seq<seq<Hash>>, starts: seq<nat>, peaks: seq<nat>,
                                yielded: seq<Hash>, completed: bool) {
    && |starts| == |batches| + 1 && starts[0] == 0 && |peaks| <= |batches|
    && (forall i | 0 <= i < |starts| :: starts[i] <= |arrivals|)
    && (forall i {:trigger peaks[i]} | 0 <= i < |peaks| ::
          DrainedWhole(arrivals, batches[i], starts[i], starts[i + 1], peaks[i]))
    && (!completed ==>
          && batches != []
          && var last := |batches| - 1;
          var d := Drain(batches[last], arrivals, starts[last], 0);
          && !d.complete && starts[last + 1] == |arrivals|
          && |yielded| == |Concat(batches)| - |batches[last]| + d.taken)
  }

  /** A completed batch extends the drains by its own. */
  lemma DrainedGrows(arrivals: seq<Arrival>, batches: seq<seq<Hash>>, starts: seq<nat>, peaks: seq<nat>,
                     yielded: seq<Hash>, batch: seq<Hash>, after: nat, peak: nat, yielded': seq<Hash>)
    requires DrainedInTurn(arrivals, batches, starts, peaks, yielded, true) && |peaks| == |batches|
    requires after <= |arrivals|
    requires DrainedWhole(arrivals, batch, starts[|starts| - 1], after, peak)
    ensures DrainedInTurn(arrivals, batches + [batch], starts + [after], peaks + [peak], yielded', true)
  {
    var bs, ss, ps := batches + [batch], starts + [after], peaks + [peak];
    forall i | 0 <= i < |ps|
      ensures DrainedWhole(arrivals, bs[i], ss[i], ss[i + 1], ps[i])
    {
      if i < |peaks| {
        assert bs[i] == batches[i] && ss[i] == starts[i] && ss[i + 1] == starts[i + 1] && ps[i] == peaks[i];
      }
    }
  }

  /** A batch cut short ends the drains cancelled. */
  lemma DrainedCut(arrivals: seq<Arrival>, batches: seq<seq<Hash>>, starts: seq<nat>, peaks: seq<nat>,
                   yielded: seq<Hash>, batch: seq<Hash>, got: seq<Hash>)
    requires DrainedInTurn(arrivals, batches, starts, peaks, yielded, true) && |peaks| == |batches|
    requires |yielded| == |Concat(batches)|
    requires var d := Drain(batch, arrivals, starts[|starts| - 1], 0); !d.complete && |got| == d.taken
    ensures DrainedInTurn(arrivals, batches + [batch], starts + [|arrivals|], peaks, yielded + got, false)
  {
    var bs, ss := batches + [batch], starts + [|arrivals|];
    forall i | 0 <= i < |peaks|
      ensures DrainedWhole(arrivals, bs[i], ss[i], ss[i + 1], peaks[i])
    {
      assert bs[i] == batches[i] && ss[i] == starts[i] && ss[i + 1] == starts[i + 1];
    }
    ConcatAppend(batches, batch);
  }

  /** GetBlocks between two batches: progressing, with every batch so far
      drained in turn and the next drain starting at `next`. */
  ghost predicate Fetching(needed: seq<Hash>, arrivals: seq<Arrival>, yielded: seq<Hash>, batches: seq<seq<Hash>>,
                           sizes: seq<nat>, peaks: seq<nat>, starts: seq<nat>, size: nat, next: nat) {
    && Progressing(needed, yielded, batches, sizes, peaks, size)
    && DrainedInTurn(arrivals, batches, starts, peaks, yielded, true)
    && next == starts[|starts| - 1]
  }

  /** GetBlocks starts fetching with nothing cut, at the initial size and
      the first arrival. */
  lemma FetchingStarts(needed: seq<Hash>, arrivals: seq<Arrival>)
    ensures Fetching(needed, arrivals, [], [], [], [], [0], InitialBatchSize, 0)
  {
    assert Concat([]) == [];
  }

  /** One round of GetBlocks on what FetchBatch returned: a completed batch
      keeps it fetching from where the drain stopped, an incomplete one ends
      the retrieval cancelled. */
  lemma FetchRound(needed: seq<Hash>, arrivals: seq<Arrival>, yielded: seq<Hash>, batches: seq<seq<Hash>>,
                   sizes: seq<nat>, peaks: seq<nat>, starts: seq<nat>, size: nat, next: nat,
                   batch: seq<Hash>, got: seq<Hash>, after: nat, peak: nat, complete: bool)
    requires Fetching(needed, arrivals, yielded, batches, sizes, peaks, starts, size, next) && |yielded| < |needed|
    requires batch == needed[|yielded|..Min(|yielded| + size, |needed|)]
    requires var d := Drain(batch, arrivals, next, 0);
      && d.taken <= |batch| && got == batch[..d.taken] && complete == d.complete
    requires (complete <==> got == batch) && after <= |arrivals|
    requires complete ==> DrainedWhole(arrivals, batch, next, after, peak)
    ensures complete ==>
      && Fetching(needed, arrivals, yielded + got, batches + [batch], sizes + [size], peaks + [peak], starts + [after],
                  NextBatchSize(size, peak), after)
      && |yielded + got| > |yielded|
    ensures !complete ==>
      && Retrieval(needed, yielded + got, batches + [batch], sizes + [size], peaks, false)
      && DrainedInTurn(arrivals, batches + [batch], starts + [|arrivals|], peaks, yielded + got, false)
  {
    RoundStep(needed, yielded, batches, sizes, peaks, size, batch, got, peak);
    if complete {
      DrainedGrows(arrivals, batches, starts, peaks, yielded, batch, after, peak, yielded + got);
    } else {
      DrainedCut(arrivals, batches, starts, peaks, yielded, batch, got);
    }
  }

  /** GetBlocks: the needed hashes are cut into batches of the current size;
      each batch is requested with one getdata and drained in order; the size
      is updated after each batch. `yielded` are the blocks returned, in
      order; `batches` the getdata requests, `sizes` the size each batch was
      cut with and `peaks` the largest backlog seen in each completed batch. */
  method GetBlocks(needed: seq<Hash>, arrivals: seq<Arrival>)
    returns (yielded: seq<Hash>, batches: seq<seq<Hash>>, sizes: seq<nat>, peaks: seq<nat>, completed: bool,
             ghost starts: seq<nat>)
    ensures Retrieval(needed, yielded, batches, sizes, peaks, completed)
    ensures DrainedInTurn(arrivals, batches, starts, peaks, yielded, completed)
    // a peer that sends every needed block, in order, is never waited on in vain
    ensures SendsInOrder(arrivals, 0, needed) ==> completed
  {
    var simultaneous: nat := InitialBatchSize;
    var next: nat := 0;
    yielded, batches, sizes, peaks := [], [], [], [];
    starts := [0];
    FetchingStarts(needed, arrivals);
    while |yielded| < |needed|
      invariant Fetching(needed, arrivals, yielded, batches, sizes, peaks, starts, simultaneous, next)
      invariant SendsInOrder(arrivals, 0, needed) ==> next == |yielded|
      decreases |needed| - |yielded|
    {
      var batch, got, after, maxQueued, complete := FetchBatch(needed, arrivals, |yielded|, next, simultaneous);
      if SendsInOrder(arrivals, 0, needed) {
        FaithfulSuffix(arrivals, needed, |yielded|, batch);
      }
      FetchRound(needed, arrivals, yielded, batches, sizes, peaks, starts, simultaneous, next,
                 batch, got, after, maxQueued, complete);
      if !complete {
        return yielded + got, batches + [batch], sizes + [simultaneous], peaks, false, starts + [|arrivals|];
      }
      yielded, batches, sizes, peaks := yielded + got, batches + [batch], sizes + [simultaneous], peaks + [maxQueued];
      starts := starts + [after];
      next := after;
      simultaneous := NextBatchSize(simultaneous, maxQueued);
    }
    Finished(needed, yielded, batches, sizes, peaks, simultaneous);
    completed := true;
  }

}
