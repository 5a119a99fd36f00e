/** Global application settings and the display-mode record they configure. */
module Settings {

  /** The values of an `unsigned int` (`UINT`). */
  type Uint = x: int | 0 <= x < 0x1_0000_0000

  /** A byte of memory or of a `std::string`. */
  type Byte = b: int | 0 <= b < 256

  /** The content aspect ratio the scene is authored for (16:9 widescreen). */
  const RenderAspectRatio: real := 16.0 / 9.0

  /** Development defaults, used when the setup dialog is skipped. */
  const WindowedDev: bool := true
  const VSyncDev: bool := true
  const MultiSampleDev: nat := 1

  /** The fixed windowed resolution. */
  const WindowedResX: Uint := 1280
  const WindowedResY: Uint := 720

  /** The two back-buffer formats: modes are enumerated in the plain one and
      rendered in the gamma-corrected one. */
  datatype Format = BackBufferFormat | BackBufferFormatGamma

  /** A display mode (only the fields the core inspects). */
  datatype DisplayMode = DisplayMode(
    width: Uint,
    height: Uint,
    refreshNumerator: Uint,
    refreshDenominator: Uint,
    format: Format)
}
