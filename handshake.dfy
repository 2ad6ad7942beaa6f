/** The pure checks of the version handshake: which peers are accepted, in
    which order the checks run, the service-bit test, the duplicate-version
    gate and the payload selection done by the handshake's listeners. */
module Handshake {
  import opened Payloads
  import opened NodeStates

  /** NodeRequirement: an optional minimum protocol version and the service
      flags the peer must advertise. */
  datatype NodeRequirement = NodeRequirement(minVersion: Option<nat>, requiredServices: bv64)

  /** `new NodeRequirement()`: no minimum version, no required service. */
  const DefaultRequirement := NodeRequirement(None, 0)

  /** Why the handshake disconnects a peer. */
  datatype Refusal = OutdatedVersion | VersionRequirementUnmet | ServicesRequirementUnmet

  /** The reason string the handshake hands to Disconnect. */
  function RefusalText(why: Refusal): string {
    match why
    case OutdatedVersion => "Outdated version"
    case VersionRequirementUnmet => "The peer does not support the version requirement"
    case ServicesRequirementUnmet => "The peer does not support the required services requirement"
  }

  /** The version at and above which a version message received after the
      handshake is answered with a DUPLICATE reject. */
  const DuplicateRejectMinVersion := 70002

  // ---------------------------------------------------------------------------
  // Service flags as bits

  /** Bit `i` of a 64-bit NodeServices mask. */
  predicate HasBit(x: bv64, i: bv8)
    requires i < 64
  {
    (x >> i) & 1 == 1
  }

  /** The masked test of Node.cs:912: the peer offers every required service. */
  predicate ServicesMet(offered: bv64, required: bv64) {
    required & offered == required
  }

  /** Every service advertised in `required` is advertised in `offered`. */
  ghost predicate Covers(offered: bv64, required: bv64) {
    forall i: bv8 | i < 64 :: HasBit(required, i) ==> HasBit(offered, i)
  }

  lemma ShiftOnce(d: bv64, k: bv8)
    requires k < 63
    ensures (d >> k) >> 1 == d >> (k + 1)
  {}

  lemma NonzeroDifference(x: bv64, y: bv64)
    requires x & y != x
    ensures (x & !y) >> 0 != 0
  {}

  lemma BitOfAnd(x: bv64, y: bv64, i: bv8)
    requires i < 64
    ensures HasBit(x & y, i) <==> HasBit(x, i) && HasBit(y, i)
  {}

  lemma BitOfNot(y: bv64, i: bv8)
    requires i < 64
    ensures HasBit(!y, i) <==> !HasBit(y, i)
  {}

  /** A mask with a set bit at or above position `k` has a lowest such bit. */
  lemma {:induction false} SetBitAtOrAbove(d: bv64, k: bv8) returns (i: bv8)
    requires k < 64 && d >> k != 0
    ensures k <= i < 64 && HasBit(d, i)
    decreases 64 - k as int
  {
    if (d >> k) & 1 == 1 {
      i := k;
    } else {
      ShiftOnce(d, if k < 63 then k else 0);
      i := SetBitAtOrAbove(d, k + 1);
    }
  }

  /** A set bit of the difference `required & !offered`, when the masked
      test fails. */
  lemma LowestMissingBit(required: bv64, offered: bv64) returns (i: bv8)
    requires required & offered != required
    ensures i < 64 && HasBit(required & !offered, i)
  {
    NonzeroDifference(required, offered);
    i := SetBitAtOrAbove(required & !offered, 0);
  }

  /** A bit of `required & !offered` is required and not offered. */
  lemma DifferenceBit(required: bv64, offered: bv64, i: bv8)
    requires i < 64 && HasBit(required & !offered, i)
    ensures HasBit(required, i) && !HasBit(offered, i)
  {
    BitOfAnd(required, !offered, i);
    BitOfNot(offered, i);
  }

  /** A required service the peer lacks, when the masked test fails. */
  lemma MissingService(required: bv64, offered: bv64) returns (i: bv8)
    requires required & offered != required
    ensures i < 64 && HasBit(required, i) && !HasBit(offered, i)
  {
    i := LowestMissingBit(required, offered);
    DifferenceBit(required, offered, i);
  }

  /** The masked test `(required & services) == required` holds exactly
      when the peer advertises every required service bit. */
  lemma ServicesTestMeansCovers(required: bv64, offered: bv64)
    ensures ServicesMet(offered, required) <==> Covers(offered, required)
  {
    if required & offered == required {
      forall i: bv8 | i < 64 && HasBit(required, i) ensures HasBit(offered, i) {
        BitOfAnd(required, offered, i);
      }
    } else {
      var i := MissingService(required, offered);
    }
  }

  // ---------------------------------------------------------------------------
  // Acceptance checks

  datatype Verdict = Accept | Refuse(why: Refusal)

  /** The acceptance checks run on the peer's version message, in source
      order: the protocol minimum, then the caller's minimum version (when
      set), then the required services. The first failing check names the
      disconnect reason. */
  function CheckPeerVersion(peer: VersionPayload, minPeerVersion: nat, req: NodeRequirement): (r: Verdict)
    ensures r == Refuse(OutdatedVersion) <==> peer.version < minPeerVersion
    ensures r == Refuse(VersionRequirementUnmet) <==>
      peer.version >= minPeerVersion && req.minVersion.Some? && peer.version < req.minVersion.value
    ensures r == Refuse(ServicesRequirementUnmet) <==>
      && peer.version >= minPeerVersion
      && (req.minVersion.Some? ==> peer.version >= req.minVersion.value)
      && !ServicesMet(peer.services, req.requiredServices)
  {
    if peer.version < minPeerVersion then Refuse(OutdatedVersion)
    else if req.minVersion.Some? && peer.version < req.minVersion.value then Refuse(VersionRequirementUnmet)
    else if !ServicesMet(peer.services, req.requiredServices) then Refuse(ServicesRequirementUnmet)
    else Accept
  }

  /** A peer is accepted exactly when it passes all three checks, the service
      check meaning that every required service bit is advertised. */
  lemma AcceptedPeers(peer: VersionPayload, minPeerVersion: nat, req: NodeRequirement)
    ensures CheckPeerVersion(peer, minPeerVersion, req) == Accept <==>
      && peer.version >= minPeerVersion
      && (req.minVersion.Some? ==> peer.version >= req.minVersion.value)
      && Covers(peer.services, req.requiredServices)
  {
    var met := ServicesMet(peer.services, req.requiredServices);
    ServicesTestMeansCovers(req.requiredServices, peer.services);
    assert met <==> Covers(peer.services, req.requiredServices);
  }

  /** With the default requirement only the protocol minimum can refuse a peer. */
  lemma DefaultRequirementOnlyChecksVersion(peer: VersionPayload, minPeerVersion: nat)
    ensures CheckPeerVersion(peer, minPeerVersion, DefaultRequirement) == Accept <==> peer.version >= minPeerVersion
  {
    assert ServicesMet(peer.services, 0);
  }

  /** The duplicate-handshake gate (Node.cs:331-334): a version message that
      arrives once the node is HandShaked is answered with a DUPLICATE reject,
      but only when the negotiated version is at least 70002. */
  function AnswersDuplicateVersion(p: Payload, state: NodeState, negotiated: nat): (r: bool)
    ensures r ==> IsConnected(state) && p.Version?
    ensures r <==> p.Version? && state == HandShaked && negotiated >= DuplicateRejectMinVersion
  {
    p.Version? && state == HandShaked && negotiated >= 70002
  }

  // ---------------------------------------------------------------------------
  // What a listener created with a `Where` predicate buffers

  predicate IsHandshakeReply(p: Payload) {
    p.Version? || p.Reject? || p.VerAck?
  }

  predicate IsResponderReply(p: Payload) {
    p.VerAck? || p.Reject?
  }

  /** The messages a listener filtered by `keep` buffers, in arrival order. */
  function Where(ps: seq<Payload>, keep: Payload -> bool): (r: seq<Payload>)
    ensures |r| <= |ps|
    ensures forall p :: p in r <==> p in ps && keep(p)
    ensures ps != [] && keep(ps[0]) ==> r != [] && r[0] == ps[0]
    ensures r == [] <==> forall p | p in ps :: !keep(p)
  {
    if ps == [] then []
    else if keep(ps[0]) then [ps[0]] + Where(ps[1..], keep)
    else Where(ps[1..], keep)
  }

  /** Splitting the arrivals splits what the listener buffers. */
  lemma {:induction false} WhereAppend(xs: seq<Payload>, ys: seq<Payload>, keep: Payload -> bool)
    ensures Where(xs + ys, keep) == Where(xs, keep) + Where(ys, keep)
    decreases |xs|
  {
    if xs == [] {
      assert xs + ys == ys;
    } else {
      assert (xs + ys)[1..] == xs[1..] + ys;
      WhereAppend(xs[1..], ys, keep);
    }
  }

  // ---------------------------------------------------------------------------
  // What the initiating side of the handshake reads (Node.cs:886-919)

  /** How far the handshake gets with the messages its listener buffers:
      the first buffered reply decides between a reject, a cast failure and
      the peer's version; an accepted version then waits for a verack among
      the later buffered replies; nothing to read means the wait was
      cancelled. */
  datatype HandshakeRead =
    | NoReply
    | RejectedBy(reason: string)
    | NotAVersion
    | Refused(peer: VersionPayload, why: Refusal)
    | NoVerAck(peer: VersionPayload)
    | Completed(peer: VersionPayload)

  function ReadVersionHandshake(replies: seq<Payload>, minPeerVersion: nat, req: NodeRequirement): (r: HandshakeRead)
    // nothing is read when no version, reject or verack arrives
    ensures r == NoReply <==> forall p | p in replies :: !IsHandshakeReply(p)
    // a refusal carries the first failing check, an acceptance passed them all
    ensures r.Refused? ==> CheckPeerVersion(r.peer, minPeerVersion, req) == Refuse(r.why)
    ensures r.Completed? || r.NoVerAck? ==> CheckPeerVersion(r.peer, minPeerVersion, req) == Accept
    // completion needs a verack from the peer
    ensures r.Completed? ==> VerAck in replies
    // whatever the peer's version is, it arrived
    ensures r.Refused? || r.NoVerAck? || r.Completed? ==> Version(r.peer) in replies
  {
    var buffered := Where(replies, IsHandshakeReply);
    if buffered == [] then NoReply
    else match buffered[0]
      case Reject(_, reason) => RejectedBy(reason)
      case Version(v) =>
        (match CheckPeerVersion(v, minPeerVersion, req)
         case Refuse(why) => Refused(v, why)
         case Accept => if VerAck in buffered[1..] then Completed(v) else NoVerAck(v))
      case _ => NotAVersion
  }

  /** What the handshake listener buffers when other traffic precedes the
      peer's version. */
  lemma BufferedAfterNoise(noise: seq<Payload>, v: VersionPayload, rest: seq<Payload>)
    requires forall p | p in noise :: !IsHandshakeReply(p)
    ensures Where(noise + [Version(v)] + rest, IsHandshakeReply) == [Version(v)] + Where(rest, IsHandshakeReply)
  {
    assert noise + [Version(v)] + rest == noise + ([Version(v)] + rest);
    WhereAppend(noise, [Version(v)] + rest, IsHandshakeReply);
    assert ([Version(v)] + rest)[1..] == rest;
  }

  /** Traffic other than version, reject and verack is ignored: when the
      first such reply is the peer's version, the outcome depends only on the
      checks and on whether a verack follows it. */
  lemma HandshakeIgnoresOtherTraffic(noise: seq<Payload>, v: VersionPayload, rest: seq<Payload>,
                                     minPeerVersion: nat, req: NodeRequirement)
    requires forall p | p in noise :: !IsHandshakeReply(p)
    ensures ReadVersionHandshake(noise + [Version(v)] + rest, minPeerVersion, req) ==
      match CheckPeerVersion(v, minPeerVersion, req)
      case Refuse(why) => Refused(v, why)
      case Accept => if VerAck in rest then Completed(v) else NoVerAck(v)
  {
    BufferedAfterNoise(noise, v, rest);
    var tail := Where(rest, IsHandshakeReply);
    assert ([Version(v)] + tail)[1..] == tail;
    assert VerAck in tail <==> VerAck in rest;
  }

  /** The payloads the initiating side sends after its own version: a verack
      once the peer's version passed the checks, then an addr when the node
      advertises a routable address and the verack arrived. */
  function HandshakeSends(read: HandshakeRead, advertizes: bool): (r: seq<Payload>)
    ensures VerAck in r <==> read.Completed? || read.NoVerAck?
    ensures Addr in r <==> read.Completed? && advertizes
    ensures r != [] ==> r[0] == VerAck
  {
    match read
    case Completed(_) => if advertizes then [VerAck, Addr] else [VerAck]
    case NoVerAck(_) => [VerAck]
    case _ => []
  }

  /** A verack is sent only to a peer whose version arrived and passed every
      check, its services covering every required service. */
  lemma VerAckOnlyWhenAccepted(replies: seq<Payload>, minPeerVersion: nat, req: NodeRequirement, advertizes: bool)
    ensures var read := ReadVersionHandshake(replies, minPeerVersion, req);
      VerAck in HandshakeSends(read, advertizes) ==>
        && Version(read.peer) in replies
        && read.peer.version >= minPeerVersion
        && (req.minVersion.Some? ==> read.peer.version >= req.minVersion.value)
        && Covers(read.peer.services, req.requiredServices)
  {
    var read := ReadVersionHandshake(replies, minPeerVersion, req);
    if read.Completed? || read.NoVerAck? {
      AcceptedPeers(read.peer, minPeerVersion, req);
    }
  }

  // ---------------------------------------------------------------------------
  // What the responding side reads (Node.cs:938-954)

  /** The first verack or reject the responder's listener buffers, or nothing
      (the wait is cancelled). */
  datatype ResponderRead = NoAnswer | RejectedWith(code: RejectCode, reason: string) | Acknowledged

  function ReadResponderHandshake(replies: seq<Payload>): (r: ResponderRead)
    ensures r == NoAnswer <==> forall p | p in replies :: !IsResponderReply(p)
    ensures r.RejectedWith? ==> Reject(r.code, r.reason) in replies
    ensures r == Acknowledged ==> VerAck in replies
  {
    var buffered := Where(replies, IsResponderReply);
    if buffered == [] then NoAnswer
    else if buffered[0].Reject? then RejectedWith(buffered[0].code, buffered[0].reason)
    else assert buffered[0] in buffered; Acknowledged
  }

  /** The responder acts on the first verack or reject, whatever arrives
      before or after it. */
  lemma ResponderTakesFirstAnswer(noise: seq<Payload>, answer: Payload, rest: seq<Payload>)
    requires forall p | p in noise :: !IsResponderReply(p)
    requires IsResponderReply(answer)
    ensures ReadResponderHandshake(noise + [answer] + rest) ==
      if answer.Reject? then RejectedWith(answer.code, answer.reason) else Acknowledged
  {
    assert noise + [answer] + rest == noise + ([answer] + rest);
    WhereAppend(noise, [answer] + rest, IsResponderReply);
    assert Where(noise, IsResponderReply) == [];
  }
}
