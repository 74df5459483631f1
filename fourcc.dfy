/**
 * Four-character pixel-format codes.  A `FourCC` holds its four bytes, first character
 * first; as a `u32` (the `pixelformat` word of a V4L2 format) the bytes are packed
 * little-endian, the first character in the low byte, as the kernel's `v4l2_fourcc`
 * macro does.  Both conversions are total: every `u32` is some four bytes.
 */
module FourCCs {
  import opened Common

  datatype FourCC = FourCC(b0: u8, b1: u8, b2: u8, b3: u8)

  /** `u32::from(fourcc)`: little-endian packing of the four bytes. */
  function ToCode(f: FourCC): (c: u32)
    ensures c % 0x100 == f.b0
    ensures c / 0x100 % 0x100 == f.b1
    ensures c / 0x1_0000 % 0x100 == f.b2
    ensures c / 0x100_0000 == f.b3
  {
    f.b0 + 0x100 * (f.b1 + 0x100 * (f.b2 + 0x100 * f.b3))
  }

  /** `FourCC::from(code)`: the four bytes of the code, low byte first. */
  function FromCode(c: u32): (f: FourCC)
    ensures ToCode(f) == c
  {
    var q1, q2 := c / 0x100, c / 0x1_0000;
    assert c == c % 0x100 + 0x100 * q1;
    assert q1 == q1 % 0x100 + 0x100 * q2 by {
      assert q2 == q1 / 0x100;
    }
    assert q2 == q2 % 0x100 + 0x100 * (c / 0x100_0000) by {
      assert c / 0x100_0000 == q2 / 0x100;
    }
    FourCC(c % 0x100, q1 % 0x100, q2 % 0x100, c / 0x100_0000)
  }

  /** Unpacking the code of a four-character code gives the same four bytes back. */
  lemma FromCodeOfCode(f: FourCC)
    ensures FromCode(ToCode(f)) == f
  {
  }
}
