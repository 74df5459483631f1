/**
 * The single-planar streaming format of a capture device and its conversions to and
 * from the kernel's fixed-layout record `struct v4l2_pix_format` (V4L2 userspace API,
 * "Image Formats", single-planar format structure).
 */
module CaptureFormat {
  import opened Common
  import FieldOrders
  import FourCCs
  import Colorspaces
  import Quantizations

  /** The kernel record, field for field, in its declared order. */
  datatype PixFormat = PixFormat(
    width: u32,
    height: u32,
    pixelformat: u32,
    field: u32,
    bytesperline: u32,
    sizeimage: u32,
    colorspace: u32,
    priv: u32,
    flags: u32,
    ycbcrEnc: u32,
    quantization: u32,
    xferFunc: u32)

  /** A record whose every field is zero (`mem::zeroed`). */
  function Zeroed(): PixFormat {
    PixFormat(0, 0, 0, 0, 0, 0, 0, 0, 0, 0, 0, 0)
  }

  /** The library's view of a format: the record's fields it maps, with typed codes. */
  datatype Format = Format(
    width: u32,
    height: u32,
    fieldOrder: FieldOrders.FieldOrder,
    fourcc: FourCCs.FourCC,
    stride: u32,
    size: u32,
    colorspace: Colorspaces.Colorspace,
    quantization: Quantizations.Quantization)

  /** Why converting a record fails: the `expect` that panics, in evaluation order. */
  datatype FormatError = InvalidField | InvalidColorspace | InvalidQuantization {
    /** The message passed to that `expect` (the panic text adds the decoding error after it). */
    function Message(): string {
      match this
      case InvalidField => "Invalid field"
      case InvalidColorspace => "Invalid colorspace"
      case InvalidQuantization => "Invalid quantization"
    }
  }

  /**
   * `Format::new`: a request for a width, height and pixel format that leaves every
   * other choice (field order, stride, size, colorspace, quantization) to the driver.
   */
  function New(width: u32, height: u32, fourcc: FourCCs.FourCC): (f: Format)
    ensures f.width == width && f.height == height && f.fourcc == fourcc
    ensures f.stride == 0 && f.size == 0
    ensures f.fieldOrder == FieldOrders.Any
    ensures f.colorspace == Colorspaces.Default && f.quantization == Quantizations.Default
  {
    Format(width, height, FieldOrders.Any, fourcc, 0, 0, Colorspaces.Default, Quantizations.Default)
  }

  /** The record fields `Into` leaves at zero, because `Format` has nothing for them. */
  predicate UnmappedZero(r: PixFormat) {
    r.priv == 0 && r.flags == 0 && r.ycbcrEnc == 0 && r.xferFunc == 0
  }

  /** `r` with the fields `Format` does not carry set to zero. */
  function ClearUnmapped(r: PixFormat): (c: PixFormat)
    ensures UnmappedZero(c)
  {
    r.(priv := 0, flags := 0, ycbcrEnc := 0, xferFunc := 0)
  }

  /**
   * `Into<v4l2_pix_format>`: start from a zeroed record and store each field of the
   * format, the typed ones as their `u32` codes.
   */
  function IntoPixFormat(f: Format): (r: PixFormat)
    ensures r.width == f.width && r.height == f.height
    ensures r.bytesperline == f.stride && r.sizeimage == f.size
    ensures r.pixelformat == FourCCs.ToCode(f.fourcc)
    ensures r.field == FieldOrders.Code(f.fieldOrder)
    ensures r.colorspace == Colorspaces.Code(f.colorspace)
    ensures r.quantization == Quantizations.Code(f.quantization)
    ensures UnmappedZero(r)
  {
    Zeroed().(
      width := f.width,
      height := f.height,
      field := FieldOrders.Code(f.fieldOrder),
      pixelformat := FourCCs.ToCode(f.fourcc),
      bytesperline := f.stride,
      sizeimage := f.size,
      colorspace := Colorspaces.Code(f.colorspace),
      quantization := Quantizations.Code(f.quantization))
  }

  /** The records `From` accepts: field, colorspace and quantization are codes of their enums. */
  predicate ValidCodes(r: PixFormat) {
    FieldOrders.IsCode(r.field) && Colorspaces.IsCode(r.colorspace) && Quantizations.IsCode(r.quantization)
  }

  /**
   * `From<v4l2_pix_format>`: copy the plain numbers, unpack the pixel format and decode
   * the three enumerations; the first code that is not valid stops the conversion
   * (field, then colorspace, then quantization, as the struct literal evaluates them).
   */
  function FromPixFormat(r: PixFormat): (res: Result<Format, FormatError>)
    ensures res.Ok? <==> ValidCodes(r)
    ensures res.Ok? ==>
      && res.value.width == r.width && res.value.height == r.height
      && res.value.stride == r.bytesperline && res.value.size == r.sizeimage
      && res.value.fourcc == FourCCs.FromCode(r.pixelformat)
      && FieldOrders.Code(res.value.fieldOrder) == r.field
      && Colorspaces.Code(res.value.colorspace) == r.colorspace
      && Quantizations.Code(res.value.quantization) == r.quantization
    ensures !FieldOrders.IsCode(r.field) ==> res == Err(InvalidField)
    ensures FieldOrders.IsCode(r.field) && !Colorspaces.IsCode(r.colorspace) ==> res == Err(InvalidColorspace)
    ensures FieldOrders.IsCode(r.field) && Colorspaces.IsCode(r.colorspace) && !Quantizations.IsCode(r.quantization)
      ==> res == Err(InvalidQuantization)
  {
    match FieldOrders.FromCode(r.field)
    case None => Err(InvalidField)
    case Some(fieldOrder) =>
      var fourcc := FourCCs.FromCode(r.pixelformat);
      match Colorspaces.FromCode(r.colorspace)
      case None => Err(InvalidColorspace)
      case Some(colorspace) =>
        match Quantizations.FromCode(r.quantization)
        case None => Err(InvalidQuantization)
        case Some(quantization) =>
          Ok(Format(r.width, r.height, fieldOrder, fourcc, r.bytesperline, r.sizeimage, colorspace, quantization))
  }

  /** Converting a format to the kernel record and back gives the same format. */
  lemma FromIntoRoundTrip(f: Format)
    ensures FromPixFormat(IntoPixFormat(f)) == Ok(f)
  {
  }

  /** Distinct formats give distinct kernel records. */
  lemma IntoInjective(f: Format, g: Format)
    ensures IntoPixFormat(f) == IntoPixFormat(g) ==> f == g
  {
    FromIntoRoundTrip(f);
    FromIntoRoundTrip(g);
  }

  /**
   * Converting an accepted record to a format and back restores it except for the
   * fields `Format` does not carry, which come back zero; so the record comes back
   * unchanged exactly when those fields were already zero.
   */
  lemma IntoFromRestores(r: PixFormat)
    requires ValidCodes(r)
    ensures FromPixFormat(r).Ok?
    ensures IntoPixFormat(FromPixFormat(r).value) == ClearUnmapped(r)
    ensures IntoPixFormat(FromPixFormat(r).value) == r <==> UnmappedZero(r)
  {
  }

  /**
   * The record of a fresh request is zero apart from width, height and pixel format: the
   * codes of `Any`, the default colorspace and the default quantization are all 0.
   * This is the one fact of this module that rests on those concrete V4L2 codes.
   */
  lemma NewRecord(width: u32, height: u32, fourcc: FourCCs.FourCC)
    ensures IntoPixFormat(New(width, height, fourcc))
      == Zeroed().(width := width, height := height, pixelformat := FourCCs.ToCode(fourcc))
  {
    var f := New(width, height, fourcc);
    FieldOrders.AnyIsZero();
    Colorspaces.DefaultIsZero();
    Quantizations.DefaultIsZero();
    assert IntoPixFormat(f).field == 0 && IntoPixFormat(f).colorspace == 0 && IntoPixFormat(f).quantization == 0;
  }
}
