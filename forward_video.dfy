/**
 * The device-selection steps of the forwarding example, which copies frames from a
 * capture device to an output device.  The capture argument is registered under the
 * name "capture_device" (long flag `--capture-device`) but looked up under the name
 * "capture-device", which no argument has.
 */
module ForwardVideo {
  import opened Common
  import Cli
  import DevicePath

  /** The name the capture argument (`-c` / `--capture-device`) is registered under. */
  const CaptureArg: string := "capture_device"
  /** The name the capture path is looked up by. */
  const CaptureLookup: string := "capture-device"
  /** The name of the output argument (`-o` / `--output-device`), registered and looked up alike. */
  const OutputArg: string := "output-device"
  const Registered: set<string> := {CaptureArg, OutputArg}

  const DefaultCapturePath: string := "/dev/video0"
  const DefaultOutputPath: string := "/dev/video1"

  /**
   * Choose both nodes, as written: the capture path from the value looked up as
   * "capture-device" (default "/dev/video0"), the output path from "output-device"
   * (default "/dev/video1"), each with the numeric-index rule.
   */
  method ChoosePaths(matches: Cli.Matches) returns (capturePath: string, outputPath: string)
    ensures capturePath == CapturePath(matches)
    ensures outputPath == OutputPath(matches)
    ensures OutputArg !in matches ==> outputPath == DefaultOutputPath
    ensures OutputArg in matches && DevicePath.IsU64Text(matches[OutputArg])
      ==> outputPath == DevicePath.VideoPrefix + matches[OutputArg]
    ensures OutputArg in matches && !DevicePath.IsU64Text(matches[OutputArg])
      ==> outputPath == matches[OutputArg]
    ensures Cli.RegisteredOnly(matches, Registered) ==> capturePath == DefaultCapturePath
  {
    capturePath := Cli.ValueOf(matches, CaptureLookup).GetOr(DefaultCapturePath);
    if DevicePath.ParseU64(capturePath).Some? {
      capturePath := DevicePath.VideoPrefix + capturePath;
    }

    outputPath := Cli.ValueOf(matches, OutputArg).GetOr(DefaultOutputPath);
    if DevicePath.ParseU64(outputPath).Some? {
      outputPath := DevicePath.VideoPrefix + outputPath;
    }
  }

  /** The capture path as written: only the value stored under "capture-device" matters. */
  function CapturePath(matches: Cli.Matches): string {
    DevicePath.Resolve(Cli.ValueOf(matches, CaptureLookup), DefaultCapturePath)
  }

  /** The output path: only the value stored under "output-device" matters. */
  function OutputPath(matches: Cli.Matches): string {
    DevicePath.Resolve(Cli.ValueOf(matches, OutputArg), DefaultOutputPath)
  }

  /**
   * Whatever `-c` says, the capture path as written is "/dev/video0": the parser files
   * the value under "capture_device", and the lookup asks for "capture-device".
   */
  lemma CaptureArgIgnored(matches: Cli.Matches, value: string)
    requires Cli.RegisteredOnly(matches, Registered)
    ensures CapturePath(matches[CaptureArg := value]) == DefaultCapturePath
  {
  }

  /** Concretely: `-c 2` asks for "/dev/video2" but the capture path is "/dev/video0". */
  lemma CaptureIndexTwoIgnored()
    ensures DevicePath.Resolve(Some("2"), DefaultCapturePath) == "/dev/video2"
    ensures CapturePath(map[CaptureArg := "2"]) == DefaultCapturePath
  {
  }

  /** The output path depends on the `output-device` value alone. */
  lemma OutputPathIndependent(matches: Cli.Matches, other: Cli.Matches)
    requires Cli.ValueOf(matches, OutputArg) == Cli.ValueOf(other, OutputArg)
    ensures OutputPath(matches) == OutputPath(other)
  {
  }

  /** Setting the capture argument does not move the output path, and setting the output argument does not move the capture path. */
  lemma PathsDoNotInteract(matches: Cli.Matches, value: string)
    ensures OutputPath(matches[CaptureArg := value]) == OutputPath(matches)
    ensures CapturePath(matches[OutputArg := value]) == CapturePath(matches)
  {
  }

  /** The capture path with the lookup fixed to the name the argument is registered under. */
  function CorrectedCapturePath(matches: Cli.Matches): string {
    DevicePath.Resolve(Cli.ValueOf(matches, CaptureArg), DefaultCapturePath)
  }

  /**
   * Choose both nodes with the capture lookup fixed: `-c` is honoured, with the same
   * default and numeric-index rule as the output argument.
   */
  method ChoosePathsCorrected(matches: Cli.Matches) returns (capturePath: string, outputPath: string)
    ensures CaptureArg !in matches ==> capturePath == DefaultCapturePath
    ensures CaptureArg in matches && DevicePath.IsU64Text(matches[CaptureArg])
      ==> capturePath == DevicePath.VideoPrefix + matches[CaptureArg]
    ensures CaptureArg in matches && !DevicePath.IsU64Text(matches[CaptureArg])
      ==> capturePath == matches[CaptureArg]
    ensures capturePath == CorrectedCapturePath(matches)
    ensures outputPath == OutputPath(matches)
  {
    capturePath := Cli.ValueOf(matches, CaptureArg).GetOr(DefaultCapturePath);
    if DevicePath.ParseU64(capturePath).Some? {
      capturePath := DevicePath.VideoPrefix + capturePath;
    }

    outputPath := Cli.ValueOf(matches, OutputArg).GetOr(DefaultOutputPath);
    if DevicePath.ParseU64(outputPath).Some? {
      outputPath := DevicePath.VideoPrefix + outputPath;
    }
  }

  /** With the corrected lookup, `-c <value>` determines the capture path. */
  lemma CorrectedCaptureHonoured(matches: Cli.Matches, value: string)
    ensures CorrectedCapturePath(matches[CaptureArg := value]) == DevicePath.Resolve(Some(value), DefaultCapturePath)
    ensures CorrectedCapturePath(map[CaptureArg := "2"]) == "/dev/video2"
  {
  }
}
