/**
 * Order of the fields of an image, as carried in the `field` word of a V4L2 format
 * (the kernel's `enum v4l2_field`).  The Rust enum is `#[repr(u32)]`: `as u32` gives the
 * code and `FieldOrder::try_from(u32)` maps a code back, failing on anything else.
 */
module FieldOrders {
  import opened Common

  datatype FieldOrder =
    | Any
    | Progressive
    | Top
    | Bottom
    | Interlaced
    | SequentialTB
    | SequentialBT
    | Alternate
    | InterlacedTB
    | InterlacedBT

  /** Number of field orders; the codes are 0 .. Count - 1. */
  const Count: nat := 10

  /** The codes `try_from` accepts. */
  predicate IsCode(c: u32) {
    c < Count
  }

  /** `field_order as u32`. */
  function Code(f: FieldOrder): (c: u32)
    ensures IsCode(c)
  {
    match f
    case Any => 0
    case Progressive => 1
    case Top => 2
    case Bottom => 3
    case Interlaced => 4
    case SequentialTB => 5
    case SequentialBT => 6
    case Alternate => 7
    case InterlacedTB => 8
    case InterlacedBT => 9
  }

  /** `FieldOrder::try_from(code)`: defined exactly on the codes of the enumeration. */
  function FromCode(c: u32): (r: Option<FieldOrder>)
    ensures r.Some? <==> IsCode(c)
    ensures r.Some? ==> Code(r.value) == c
  {
    match c
    case 0 => Some(Any)
    case 1 => Some(Progressive)
    case 2 => Some(Top)
    case 3 => Some(Bottom)
    case 4 => Some(Interlaced)
    case 5 => Some(SequentialTB)
    case 6 => Some(SequentialBT)
    case 7 => Some(Alternate)
    case 8 => Some(InterlacedTB)
    case 9 => Some(InterlacedBT)
    case _ => None
  }

  /** The order `Format::new` requests, `Any`, has code 0 (`V4L2_FIELD_ANY`): the driver picks the order. */
  lemma AnyIsZero()
    ensures Code(Any) == 0
  {
  }

  /** Decoding the code of a field order gives that field order back. */
  lemma FromCodeOfCode(f: FieldOrder)
    ensures FromCode(Code(f)) == Some(f)
  {
  }
}
