/**
 * How colour values are mapped onto the code range, as carried in the `quantization`
 * word of a V4L2 format (the kernel's `enum v4l2_quantization`).  `as u32` gives the
 * code and `Quantization::try_from(u32)` maps a code back, failing on anything else.
 */
module Quantizations {
  import opened Common

  datatype Quantization =
    | Default
    | FullRange
    | LimitedRange

  /** Number of quantizations; the codes are 0 .. Count - 1. */
  const Count: nat := 3

  /** The codes `try_from` accepts. */
  predicate IsCode(c: u32) {
    c < Count
  }

  /** `quantization as u32`. */
  function Code(q: Quantization): (c: u32)
    ensures IsCode(c)
  {
    match q
    case Default => 0
    case FullRange => 1
    case LimitedRange => 2
  }

  /** `Quantization::try_from(code)`: defined exactly on the codes of the enumeration. */
  function FromCode(c: u32): (r: Option<Quantization>)
    ensures r.Some? <==> IsCode(c)
    ensures r.Some? ==> Code(r.value) == c
  {
    match c
    case 0 => Some(Default)
    case 1 => Some(FullRange)
    case 2 => Some(LimitedRange)
    case _ => None
  }

  /** The quantization `Format::new` requests, `Default`, has code 0 (`V4L2_QUANTIZATION_DEFAULT`). */
  lemma DefaultIsZero()
    ensures Code(Default) == 0
  {
  }

  /** Decoding the code of a quantization gives that quantization back. */
  lemma FromCodeOfCode(q: Quantization)
    ensures FromCode(Code(q)) == Some(q)
  {
  }
}
