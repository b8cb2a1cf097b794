/** Vocabulary shared by the two ends of a reliable stream. */
module ReliableTypes {
  type Bytes = seq<nat>

  const U32_SIZE: nat := 0x1_0000_0000
  const U64_SIZE: nat := 0x1_0000_0000_0000_0000

  /** Build-time limits of the reliable layer (defaults 16, 8 and 200). */
  datatype Limits = Limits(maxPending: nat, maxRetries: nat, retransmitMs: nat)

  datatype Mode = Ordered | Unordered

  /** A sequenced frame: the number written into its reliable header, and everything else on the wire. */
  datatype Frame = Frame(number: nat, body: Bytes)

  /** u32 successor that skips 0. */
  function AfterSeq(n: nat): nat
  {
    var next := (n + 1) % U32_SIZE;
    if next == 0 then 1 else next
  }
}
