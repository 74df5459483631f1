# libv4l-rs: single-planar format conversions and device-path selection

This project models two pieces of the Rust Video4Linux binding `libv4l-rs`:

- the single-planar streaming `Format` of a capture device (`src/capture/format.rs`):
  the request built by `Format::new`, the conversion `Into<v4l2_pix_format>` that writes
  a format into the kernel's fixed-layout record `struct v4l2_pix_format`, and the
  conversion `From<v4l2_pix_format>` that reads it back and panics on a field order,
  colorspace or quantization code its enumeration does not have;
- the rule by which the example programs (`examples/device_capture.rs`,
  `examples/framesizes_output.rs`, `examples/forward_video.rs`) turn an optional
  command-line value into the device node they open: no value gives a default node, a
  value that parses as a `u64` gives "/dev/video" followed by the value's own text, and
  any other value is the path itself.

Layout, one module per file:

- `common.dfy` (`Common`): `u8`/`u32`/`u64` as bounded integers, `Option`, `Result`.
- `field_order.dfy`, `colorspace.dfy`, `quantization.dfy` (`FieldOrders`, `Colorspaces`,
  `Quantizations`): each enumeration with its `u32` code (`as u32`) and the partial
  decoding of a code (`try_from`).
- `fourcc.dfy` (`FourCCs`): the four-character pixel-format code and its little-endian
  packing into a `u32` (`u32::from`, `FourCC::from`).
- `format.dfy` (`CaptureFormat`): the kernel record `PixFormat`, `Format`, `New`,
  `IntoPixFormat`, `FromPixFormat` and the round-trip lemmas.
- `device_path.dfy` (`DevicePath`): Rust's `u64` parse (`str::parse::<u64>`) as a
  checked digit loop, proved equal to a positional decimal reference, and the shared
  path rule `Resolve` with its idempotence.
- `cli.dfy` (`Cli`): the argument parser's result, a map from registered argument
  name to value, and `value_of`.
- `device_capture.dfy`, `framesizes_output.dfy`, `forward_video.dfy`: the path-choosing
  steps of the three `main` functions, each written as the source writes it, a
  mutable `path` reassigned when it parses as an index.

The enumeration modules and `FourCCs` stand for source files that are not part of this
model (`field_order.rs`, `colorspace.rs`, `quantization.rs`, `fourcc.rs`). Their codes
are taken from the V4L2 userspace API: `enum v4l2_field` (0 to 9), `enum v4l2_colorspace`
(0 to 12), `enum v4l2_quantization` (0 to 2), and the `v4l2_fourcc` packing, first
character in the low byte. Apart from `CaptureFormat.NewRecord`, the `Format` proofs use
only what those modules prove: every code is in range, decoding is defined exactly on
the range, and decoding inverts the code. `NewRecord` also uses the concrete V4L2 fact
that `Any`, the default colorspace and the default quantization all have code 0, stated
as the lemmas `FieldOrders.AnyIsZero`, `Colorspaces.DefaultIsZero` and
`Quantizations.DefaultIsZero`. `FourCC::from(u32)` implements Rust's infallible `From` trait, so unlike the
three enumerations its decoding is total, and the model makes it total too.

The `u64` parse follows Rust's integer parser for an unsigned type. Empty text fails.
A lone '+' or '-' fails. One leading '+' is skipped. '-' is not a digit. Each step
computes `acc * 10 + digit` with overflow checks. As a consequence "007" names
"/dev/video007" and "+3" names "/dev/video+3". That second path is kept verbatim, like
any other numeric text.

## Model

| member | source | states |
|---|---|---|
| `FieldOrders.Code` | src/capture/format.rs:100 | the code of every field order is one that `try_from` accepts |
| `FieldOrders.FromCode` | src/capture/format.rs:81 | decoding succeeds exactly on the codes of the enumeration, and a decoded field order has that code |
| `FieldOrders.AnyIsZero` | src/capture/format.rs:51 | the field order a new request asks for, `Any`, is stored as code 0 (`V4L2_FIELD_ANY`, from the V4L2 API) |
| `FieldOrders.FromCodeOfCode` | src/capture/format.rs:81 | decoding the code of a field order gives it back |
| `Colorspaces.Code` | src/capture/format.rs:104 | the code of every colorspace is one that `try_from` accepts |
| `Colorspaces.FromCode` | src/capture/format.rs:85 | decoding succeeds exactly on the codes of the enumeration, and a decoded colorspace has that code |
| `Colorspaces.DefaultIsZero` | src/capture/format.rs:55 | the colorspace a new request asks for, `Default`, is stored as code 0 (`V4L2_COLORSPACE_DEFAULT`, from the V4L2 API) |
| `Colorspaces.FromCodeOfCode` | src/capture/format.rs:85 | decoding the code of a colorspace gives it back |
| `Quantizations.Code` | src/capture/format.rs:105 | the code of every quantization is one that `try_from` accepts |
| `Quantizations.FromCode` | src/capture/format.rs:86 | decoding succeeds exactly on the codes of the enumeration, and a decoded quantization has that code |
| `Quantizations.DefaultIsZero` | src/capture/format.rs:56 | the quantization a new request asks for, `Default`, is stored as code 0 (`V4L2_QUANTIZATION_DEFAULT`, from the V4L2 API) |
| `Quantizations.FromCodeOfCode` | src/capture/format.rs:86 | decoding the code of a quantization gives it back |
| `FourCCs.ToCode` | src/capture/format.rs:101 | byte i of the packed `u32`, counting from the low byte, is character i of the code |
| `FourCCs.FromCode` | src/capture/format.rs:82 | unpacking is total, and packing the unpacked bytes gives the same `u32` |
| `FourCCs.FromCodeOfCode` | src/capture/format.rs:82 | unpacking the packed code gives the same four bytes |
| `CaptureFormat.New` | src/capture/format.rs:47-58 | a new request has the given width, height and fourcc, stride 0, size 0, field order Any, default colorspace and default quantization |
| `CaptureFormat.NewRecord` | src/capture/format.rs:47-58 | the kernel record of a new request is zero in every field except width, height and pixelformat (using the three zero codes above) |
| `CaptureFormat.IntoPixFormat` | src/capture/format.rs:91-107 | width, height, stride to bytesperline and size to sizeimage are copied unchanged; field, colorspace and quantization hold their enumeration codes and pixelformat the packed fourcc; priv, flags, ycbcr_enc and xfer_func are zero |
| `CaptureFormat.FromPixFormat` | src/capture/format.rs:75-88 | succeeds exactly when field, colorspace and quantization are valid codes; otherwise fails with the first invalid one in the order field, colorspace, quantization; on success copies width, height, bytesperline to stride and sizeimage to size, unpacks pixelformat, and each decoded enumeration has the record's code |
| `CaptureFormat.FromIntoRoundTrip` | src/capture/format.rs:75-107 | converting any format to the kernel record and back gives the same format |
| `CaptureFormat.IntoInjective` | src/capture/format.rs:91-107 | two formats with the same kernel record are equal |
| `CaptureFormat.IntoFromRestores` | src/capture/format.rs:75-107 | an accepted record converted to a format and back equals the record with priv, flags, ycbcr_enc and xfer_func cleared, so it comes back unchanged exactly when those four are zero |
| `DevicePath.AccumulateIsDecimal` | examples/device_capture.rs:27 | the checked digit loop succeeds exactly on digit strings whose decimal value is at most `u64::MAX`, and yields that value |
| `DevicePath.ParseU64` | examples/device_capture.rs:27 | parsing succeeds exactly on text that is an optional '+' followed by one or more ASCII digits of value at most `u64::MAX`, and yields that value |
| `DevicePath.Resolve` | examples/device_capture.rs:23-29 | with the value, or the default when absent: numeric text gives "/dev/video" followed by the text exactly as spelled; any other text is the path itself |
| `DevicePath.ResolvedIsNotIndex` | examples/device_capture.rs:27-29 | a resolved path never parses as a `u64` |
| `DevicePath.ResolveIdempotent` | examples/device_capture.rs:27-29 | resolving a resolved path again, with any default, changes nothing; the same rule is written out at examples/framesizes_output.rs:27-29 and examples/forward_video.rs:36-38,48-50 |
| `DevicePath.ResolveExamples` | examples/device_capture.rs:23-29 | no value gives "/dev/video0"; "3" gives "/dev/video3"; "007" gives "/dev/video007"; "+3" gives "/dev/video+3"; "-1", "" and "/dev/video2" are kept unchanged |
| `DevicePath.DecimalValueOfMax` | examples/device_capture.rs:27 | the decimal text of `u64::MAX` denotes `u64::MAX` |
| `DevicePath.DecimalValueAboveMax` | examples/device_capture.rs:27 | the decimal text one above `u64::MAX` denotes `u64::MAX` + 1 |
| `DevicePath.ResolveAtU64Bound` | examples/device_capture.rs:27 | "18446744073709551615" is an index and gets the prefix; "18446744073709551616" overflows and is kept unchanged |
| `DeviceCapture.ChoosePath` | examples/device_capture.rs:23-29 | no `device` value gives "/dev/video0"; a value that parses as `u64` gives "/dev/video" plus the value's text; any other value is used unchanged |
| `FramesizesOutput.ChoosePath` | examples/framesizes_output.rs:23-29 | no `device` value gives "/dev/video1"; a value that parses as `u64` gives "/dev/video" plus the value's text; any other value is used unchanged |
| `ForwardVideo.ChoosePaths` | examples/forward_video.rs:32-50 | the output path is "/dev/video1" without an `output-device` value, "/dev/video" plus the text for numeric values, and the value itself otherwise; the capture path follows the same rule from the "capture-device" lookup, and is "/dev/video0" whenever the parser holds only registered names |
| `ForwardVideo.CaptureArgIgnored` | examples/forward_video.rs:14-35 | whatever value `-c` supplies, the capture path as written is "/dev/video0" |
| `ForwardVideo.CaptureIndexTwoIgnored` | examples/forward_video.rs:14-38 | `-c 2` should name "/dev/video2", but the capture path as written is "/dev/video0" |
| `ForwardVideo.OutputPathIndependent` | examples/forward_video.rs:44-50 | two parser results with the same `output-device` value give the same output path |
| `ForwardVideo.PathsDoNotInteract` | examples/forward_video.rs:32-50 | setting the capture argument leaves the output path unchanged, and setting the output argument leaves the capture path unchanged |
| `ForwardVideo.ChoosePathsCorrected` | examples/forward_video.rs:32-50 | with the lookup by the registered name "capture_device", no value gives "/dev/video0", numeric values get the prefix and other values are kept; the output path is unchanged from the original |
| `ForwardVideo.CorrectedCaptureHonoured` | examples/forward_video.rs:14-38 | with the corrected lookup, the capture path is the resolution of the value `-c` supplies, so `-c 2` gives "/dev/video2" |

## Left out

- The `Display` impl for `Format` (src/capture/format.rs:61-73): text formatting that relies on `Display` impls of the enumerations and of `FourCC`, which are not part of this model.
- The argument parser itself (`App::new` ... `get_matches`): a library call, modelled only by its result, a map from registered argument name to value.
- Opening the devices, querying and setting formats and parameters, enumerating frame sizes, the mmap buffer stream and `write_all`: foreign ioctl calls and I/O with no logic visible in these files.
- The buffer pool, the streaming state machine and the queue/dequeue protocol: their source is not part of this model, so there is nothing to check a model against.
- The `println!` output, the frame-size printing loop (examples/framesizes_output.rs:41-43) and the endless forwarding loop (examples/forward_video.rs:65-70): pure I/O.
- The concrete enumeration codes and the fourcc packing come from files not part of this model; they are taken from the V4L2 userspace API, as said above.
- `FromPixFormat` returns an error value where the source panics through `expect`; the message passed to that `expect` is kept as `FormatError.Message`, without the decoding error the panic text appends to it.

## Findings

| source | as written | input that shows it | evidently intended | confidence | as-written member | corrected member |
|---|---|---|---|---|---|---|
| examples/forward_video.rs:14-33 | the capture argument is registered as "capture_device" but looked up as "capture-device", so the lookup never finds it | `-c 2` gives the capture path "/dev/video0" | `-c 2` gives "/dev/video2", as the help text promises ("Capture device node path or index") | medium, not executed; relies on the parser returning no value for an unregistered name | `ForwardVideo.CaptureIndexTwoIgnored` | `ForwardVideo.CorrectedCaptureHonoured` |
