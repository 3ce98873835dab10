/** Small value types shared by every other module. */
module Basics {

  /** One byte; integers rather than a bit vector, so that codecs reason by arithmetic. */
  type byte = x: int | 0 <= x < 256

  type Bytes = seq<byte>

  datatype Option<+T> = None | Some(value: T)

  /** A digest is opaque to the model: only the function that produces it is ever compared. */
  type Digest = Bytes

  /** The hypothesis under which comparing digests is comparing bytes. */
  ghost predicate CollisionFree(hash: Bytes -> Digest) {
    forall a, b :: hash(a) == hash(b) ==> a == b
  }

  function Min(a: nat, b: nat): nat {
    if a < b then a else b
  }

  /** `a.div_ceil(b)` of the source, on unbounded naturals. */
  function DivCeil(a: nat, b: nat): nat
    requires b > 0
  {
    (a + b - 1) / b
  }
}
