/** The device-selection step of the capture example, which then opens a capture device. */
module DeviceCapture {
  import Cli
  import DevicePath

  /** The one argument the example registers, `-d` / `--device`. */
  const DeviceArg: string := "device"
  const DefaultPath: string := "/dev/video0"

  /**
   * Choose the node to open: the `device` value, or "/dev/video0" without one; a value
   * that parses as a `u64` is replaced by "/dev/video" followed by that same text.
   */
  method ChoosePath(matches: Cli.Matches) returns (path: string)
    ensures DeviceArg !in matches ==> path == DefaultPath
    ensures DeviceArg in matches && DevicePath.IsU64Text(matches[DeviceArg])
      ==> path == DevicePath.VideoPrefix + matches[DeviceArg]
    ensures DeviceArg in matches && !DevicePath.IsU64Text(matches[DeviceArg])
      ==> path == matches[DeviceArg]
    ensures path == DevicePath.Resolve(Cli.ValueOf(matches, DeviceArg), DefaultPath)
  {
    path := Cli.ValueOf(matches, DeviceArg).GetOr(DefaultPath);
    if DevicePath.ParseU64(path).Some? {
      path := DevicePath.VideoPrefix + path;
    }
  }
}
