/**
 * Colorspace of the pixels, as carried in the `colorspace` word of a V4L2 format
 * (the kernel's `enum v4l2_colorspace`).  `as u32` gives the code and
 * `Colorspace::try_from(u32)` maps a code back, failing on anything else.
 */
module Colorspaces {
  import opened Common

  datatype Colorspace =
    | Default
    | SMPTE170M
    | SMPTE240M
    | Rec709
    | BT878
    | System470M
    | System470BG
    | JPEG
    | SRGB
    | OPRGB
    | BT2020
    | Raw
    | DCIP3

  /** Number of colorspaces; the codes are 0 .. Count - 1. */
  const Count: nat := 13

  /** The codes `try_from` accepts. */
  predicate IsCode(c: u32) {
    c < Count
  }

  /** `colorspace as u32`. */
  function Code(cs: Colorspace): (c: u32)
    ensures IsCode(c)
  {
    match cs
    case Default => 0
    case SMPTE170M => 1
    case SMPTE240M => 2
    case Rec709 => 3
    case BT878 => 4
    case System470M => 5
    case System470BG => 6
    case JPEG => 7
    case SRGB => 8
    case OPRGB => 9
    case BT2020 => 10
    case Raw => 11
    case DCIP3 => 12
  }

  /** `Colorspace::try_from(code)`: defined exactly on the codes of the enumeration. */
  function FromCode(c: u32): (r: Option<Colorspace>)
    ensures r.Some? <==> IsCode(c)
    ensures r.Some? ==> Code(r.value) == c
  {
    match c
    case 0 => Some(Default)
    case 1 => Some(SMPTE170M)
    case 2 => Some(SMPTE240M)
    case 3 => Some(Rec709)
    case 4 => Some(BT878)
    case 5 => Some(System470M)
    case 6 => Some(System470BG)
    case 7 => Some(JPEG)
    case 8 => Some(SRGB)
    case 9 => Some(OPRGB)
    case 10 => Some(BT2020)
    case 11 => Some(Raw)
    case 12 => Some(DCIP3)
    case _ => None
  }

  /** The colorspace `Format::new` requests, `Default`, has code 0 (`V4L2_COLORSPACE_DEFAULT`). */
  lemma DefaultIsZero()
    ensures Code(Default) == 0
  {
  }

  /** Decoding the code of a colorspace gives that colorspace back. */
  lemma FromCodeOfCode(cs: Colorspace)
    ensures FromCode(Code(cs)) == Some(cs)
  {
  }
}
