/** The messages the loop3 engine exchanges, as values. */
module Blocks {
  import opened Types

  datatype BlockType = Plain | LatencyRequest | LatencyResponse

  /**
   * A unit of test traffic. `timestamp` is a wall-clock instant in milliseconds; it
   * matters only for the two latency types but every block carries one.
   */
  datatype Block = Block(sequence: uint32, blockType: BlockType, timestamp: int, data: seq<byte>, hash: seq<byte>)

  /** The test descriptor one side sends and the other reads before the run. */
  datatype Test = Test(
    name: string,
    txRequests: int32,
    rxRequests: int32,
    payloadMinBytes: int32,
    payloadMaxBytes: int32,
    latencyFrequency: int32,
    txPacing: int32,
    txMaxJitter: int32,
    rxTimeout: int32)

  /**
   * The collaborators the engine calls but does not define: the protocol-buffer
   * encoding of blocks and test descriptors, and the SHA-512 digest.
   */
  datatype Codec = Codec(
    encode: Block -> seq<byte>,
    decode: seq<byte> -> Option<Block>,
    encodeTest: Test -> seq<byte>,
    decodeTest: seq<byte> -> Option<Test>,
    hash: seq<byte> -> seq<byte>)
}
