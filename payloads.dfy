/** The values a peer connection exchanges and records: the few payloads the
    connection core inspects, block headers reduced to their linking data, and
    the disconnect reason. Wire encoding is not modelled. */
module Payloads {

  datatype Option<+T> = None | Some(value: T)

  /** A 256-bit block hash (uint256); only equality between hashes matters. */
  type Hash(==, !new)

  /** An exception object caught by a loop; only which one it was matters. */
  type Fault(==, !new)

  /** A block header, reduced to its own hash (what GetHash() returns) and the
      hash of the block it claims to extend (HashPrevBlock). */
  datatype BlockHeader = BlockHeader(hash: Hash, hashPrevBlock: Hash)

  /** The part of a version message the handshake looks at: the protocol
      version, the NodeServices flags (a 64-bit mask) and the start height. */
  datatype VersionPayload = VersionPayload(version: nat, services: bv64, startHeight: int)

  datatype RejectCode = Duplicate | OtherCode(code: bv8)

  /** The payloads the connection core sends or inspects; every other command
      is an opaque `Other`. */
  datatype Payload =
    | Version(peer: VersionPayload)
    | VerAck
    | Reject(code: RejectCode, reason: string)
    | GetHeaders(locatorFrom: Hash, hashStop: Option<Hash>)
    | Headers(headers: seq<BlockHeader>)
    | GetData(blocks: seq<Hash>)
    | Block(blockHash: Hash)
    | Addr
    | Other(command: string)

  /** NodeDisconnectReason: a human-readable reason (null when the caller gave
      none) and the exception that caused it, if any. */
  datatype DisconnectReason = DisconnectReason(reason: Option<string>, exception: Option<Fault>)
}
