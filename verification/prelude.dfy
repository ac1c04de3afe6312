/** Shared vocabulary: optional values, results and the machine integers of the wire formats. */
module Prelude {

  datatype Option<+T> = None | Some(value: T)

  datatype Result<+T, +E> = Ok(value: T) | Err(error: E)

  newtype byte = x: int | 0 <= x < 256

  type Bytes = seq<byte>

  const U32_MAX: nat := 0xFFFF_FFFF

  const U64_MODULUS: nat := 0x1_0000_0000_0000_0000

  type u64 = x: nat | x < U64_MODULUS

  function Min(a: int, b: int): int {
    if a < b then a else b
  }

  function Max(a: int, b: int): int {
    if a < b then b else a
  }

  /** Rust's saturating `f64 as u64` cast, on reals. */
  function RealToU64(r: real): u64 {
    if r < 0.0 then 0
    else if r.Floor >= U64_MODULUS then U64_MODULUS - 1
    else r.Floor
  }

  lemma RealToU64Monotone(a: real, b: real)
    requires a <= b
    ensures RealToU64(a) <= RealToU64(b)
  {
    if 0.0 <= a {
      assert a.Floor <= b.Floor;
    }
  }

  /**
   * Keeps a predicate closed: where its body is stated under `forall u :: Opened(topic, u) ==> ...`, only a proof that
   * asserts `Opened(topic, true)` sees inside. Topics keep apart what one proof opens and another must not.
   */
  predicate Opened<Topic>(topic: Topic, u: bool) {
    u
  }
}
