/** What the setup dialog hands back when the user presses OK: combo-box
    indices are turned into the adapter, output, display mode, aspect-ratio
    override, multisample count and the two toggles. */
module SetupDialog {
  import opened Settings
  import opened AspectRatios
  import opened AspectRatioLists
  import Platform

  /** The state of the dialog's controls when OK is pressed. */
  datatype Selection = Selection(
    windowedChecked: bool,
    vSyncChecked: bool,
    adapterIndex: Uint,
    outputIndex: Uint,
    modeIndex: nat,
    aspectIndex: nat,
    multiSampleIndex: Uint)

  /** The values written through the dialog's reference parameters. */
  datatype DialogSettings = DialogSettings(
    adapter: Uint,
    output: Uint,
    mode: DisplayMode,
    aspectRatio: real,
    multiSamples: Uint,
    windowed: bool,
    vSync: bool)

  /** The aspect value that asks for the ratio of the display mode itself. */
  const AutomaticAspect: real := -1.0

  function Pow2(k: nat): nat
  {
    if k == 0 then 1 else 2 * Pow2(k - 1)
  }

  /** The multisample combo box lists Off, 2x, 4x and 8x; any other index
      falls back to a single sample. */
  function MultiSamplesFor(index: Uint): (samples: Uint)
    ensures index < 4 ==> samples == Pow2(index)
    ensures index >= 4 ==> samples == 1
  {
    if index == 0 then 1
    else if index == 1 then 2
    else if index == 2 then 4
    else if index == 3 then 8
    else 1
  }

  /** Every count the dialog can produce is a power of two accepted by
      `IsPowerOfTwo`, and is 1, 2, 4 or 8. */
  lemma MultiSamplesArePowersOfTwo(index: Uint)
    ensures MultiSamplesFor(index) in {1, 2, 4, 8}
    ensures Platform.IsPowerOfTwo(MultiSamplesFor(index) as bv32)
  {
  }

  /** The list entries the aspect combo box offers can be divided out. */
  predicate RatiosUsable(ratios: seq<AspectRatio>)
  {
    forall r :: r in ratios ==> r.denominator != 0
  }

  /** The combo boxes only offer valid positions: one per enumerated mode, and
      "Automatic" followed by one entry per listed ratio. */
  predicate SelectionInRange(sel: Selection, modes: seq<DisplayMode>, ratios: seq<AspectRatio>)
  {
    !sel.windowedChecked ==> sel.modeIndex < |modes| && sel.aspectIndex <= |ratios|
  }

  /** The settings after OK, given the values held before. In windowed mode
      the primary adapter and output are used, the aspect ratio follows the
      window and the display mode is left as it was. In full-screen mode the
      selected mode is taken with its format switched to the gamma-corrected
      one, and aspect entry 0 means automatic while entry k names list
      entry k - 1. */
  function OkSettings(previous: DialogSettings, sel: Selection, modes: seq<DisplayMode>,
                      ratios: seq<AspectRatio>): (s: DialogSettings)
    requires SelectionInRange(sel, modes, ratios) && RatiosUsable(ratios)
    ensures s.windowed == sel.windowedChecked && s.vSync == sel.vSyncChecked
    ensures s.multiSamples == MultiSamplesFor(sel.multiSampleIndex)
  {
    var multiSamples := MultiSamplesFor(sel.multiSampleIndex);
    if !sel.windowedChecked then
      var aspect := if sel.aspectIndex == 0 then AutomaticAspect else GetRatio(ratios[sel.aspectIndex - 1]);
      DialogSettings(sel.adapterIndex, sel.outputIndex,
                     modes[sel.modeIndex].(format := BackBufferFormatGamma),
                     aspect, multiSamples, false, sel.vSyncChecked)
    else
      previous.(adapter := 0, output := 0, aspectRatio := AutomaticAspect,
                multiSamples := multiSamples, windowed := true, vSync := sel.vSyncChecked)
  }

  /** Windowed: primary adapter and output, automatic aspect, mode untouched. */
  lemma OkWindowed(previous: DialogSettings, sel: Selection, modes: seq<DisplayMode>, ratios: seq<AspectRatio>)
    requires SelectionInRange(sel, modes, ratios) && RatiosUsable(ratios)
    requires sel.windowedChecked
    ensures var s := OkSettings(previous, sel, modes, ratios);
      s.adapter == 0 && s.output == 0 && s.aspectRatio == AutomaticAspect && s.mode == previous.mode
  {
  }

  /** Full screen: the chosen adapter, output and mode (in the gamma format),
      and the aspect override of the chosen list entry. */
  lemma OkFullScreen(previous: DialogSettings, sel: Selection, modes: seq<DisplayMode>, ratios: seq<AspectRatio>)
    requires SelectionInRange(sel, modes, ratios) && RatiosUsable(ratios)
    requires !sel.windowedChecked
    ensures var s := OkSettings(previous, sel, modes, ratios);
      && s.adapter == sel.adapterIndex && s.output == sel.outputIndex
      && s.mode.format == BackBufferFormatGamma
      && s.mode.(format := modes[sel.modeIndex].format) == modes[sel.modeIndex]
      && (sel.aspectIndex == 0 <==> s.aspectRatio == AutomaticAspect)
      && (sel.aspectIndex > 0 ==> s.aspectRatio == GetRatio(ratios[sel.aspectIndex - 1]))
  {
    if sel.aspectIndex > 0 {
      var r := ratios[sel.aspectIndex - 1];
      assert r in ratios;
      GetRatioNonNegative(r);
    }
  }

  lemma GetRatioNonNegative(r: AspectRatio)
    requires r.denominator != 0
    ensures GetRatio(r) >= 0.0
  {
  }

  /** When the list is the one built from the enumerated modes, an override
      is always the width-over-height of one of those modes, so it is
      positive and never mistaken for "automatic". */
  lemma OkAspectIsModeRatio(previous: DialogSettings, sel: Selection, modes: seq<DisplayMode>)
    requires ModesHaveArea(modes)
    requires SelectionInRange(sel, modes, AspectChoices(modes))
    requires !sel.windowedChecked && sel.aspectIndex > 0
    ensures RatiosUsable(AspectChoices(modes))
    ensures var s := OkSettings(previous, sel, modes, AspectChoices(modes));
      s.aspectRatio > 0.0 &&
      exists i :: 0 <= i < |modes| && s.aspectRatio == modes[i].width as real / modes[i].height as real
  {
    var c := AspectChoices(modes);
    ChoicesFromModes(modes, NumeratorKey);
    var y := c[sel.aspectIndex - 1];
    assert y in c;
    var i :| 0 <= i < |modes| && y == Make(modes[i].width, modes[i].height);
    GetRatioIsWidthOverHeight(modes[i].width, modes[i].height);
    PositiveQuotient(modes[i].width, modes[i].height);
  }

  lemma PositiveQuotient(w: Uint, h: Uint)
    requires w != 0 && h != 0
    ensures w as real / h as real > 0.0
  {
  }

  /** The objects the dialog's reference parameters point to. */
  class SettingsTargets {
    var adapter: Uint
    var output: Uint
    var mode: DisplayMode
    var aspectRatio: real
    var multiSamples: Uint
    var windowed: bool
    var vSync: bool

    function Current(): DialogSettings
      reads this
    {
      DialogSettings(adapter, output, mode, aspectRatio, multiSamples, windowed, vSync)
    }

    constructor (initial: DialogSettings)
      ensures Current() == initial
    {
      adapter, output, mode := initial.adapter, initial.output, initial.mode;
      aspectRatio, multiSamples := initial.aspectRatio, initial.multiSamples;
      windowed, vSync := initial.windowed, initial.vSync;
    }

    /** The OK handler: reads the toggles, then either the full-screen
        selections or the windowed defaults, then the multisample count. */
    method OnOk(sel: Selection, modes: seq<DisplayMode>, ratios: seq<AspectRatio>)
      requires SelectionInRange(sel, modes, ratios) && RatiosUsable(ratios)
      modifies this
      ensures Current() == OkSettings(old(Current()), sel, modes, ratios)
    {
      windowed := sel.windowedChecked;
      vSync := sel.vSyncChecked;
      if !windowed {
        adapter := sel.adapterIndex;
        output := sel.outputIndex;
        mode := modes[sel.modeIndex];
        if sel.aspectIndex == 0 {
          aspectRatio := AutomaticAspect;
        } else {
          aspectRatio := GetRatio(ratios[sel.aspectIndex - 1]);
        }
        mode := mode.(format := BackBufferFormatGamma);
      } else {
        adapter := 0;
        output := 0;
        aspectRatio := AutomaticAspect;
      }
      multiSamples := MultiSamplesFor(sel.multiSampleIndex);
    }
  }

  /** How the modal dialog ended. */
  datatype DialogEnd = EndedOk | EndedCancel | NotShown

  /** `SetupDialog()` proceeds only after OK; a dialog that could not be shown
      also records an error message. */
  function DialogOutcome(end: DialogEnd): (r: (bool, string))
    ensures r.0 <==> end == EndedOk
    ensures r.1 != "" <==> end == NotShown
  {
    match end
    case EndedOk => (true, "")
    case EndedCancel => (false, "")
    case NotShown => (false, "Can't spawn setup dialog.")
  }
}
