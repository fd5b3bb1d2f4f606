/**
 * The decisions of the floating window's page
 * (src/renderer/src/components/FloatingTemplates/FloatingTemplates.tsx):
 * the size it asks the main process for, which templates it lists, and when
 * a change of the stored pin settings makes it ask for a reload.
 */
module FloatingTemplates {
  import opened Common
  import MainProcess

  const MinSide := 50
  const MaxWidth := 500
  const MaxHeight := 400

  /** Requested width from `Math.ceil(rect.width)` (line 104): one pixel less, clamped to [50, 500]. */
  function ClampWidth(ceilWidth: int): (w: int)
    ensures MinSide <= w <= MaxWidth
    ensures MinSide <= ceilWidth - 1 <= MaxWidth ==> w == ceilWidth - 1
    ensures ceilWidth - 1 < MinSide ==> w == MinSide
    ensures ceilWidth - 1 > MaxWidth ==> w == MaxWidth
  {
    var inner := if MaxWidth < ceilWidth + -1 then MaxWidth else ceilWidth + -1;
    if MinSide < inner then inner else MinSide
  }

  /** Requested height from `Math.ceil(rect.height)` (line 105): clamped to [50, 400]. */
  function ClampHeight(ceilHeight: int): (h: int)
    ensures MinSide <= h <= MaxHeight
    ensures MinSide <= ceilHeight <= MaxHeight ==> h == ceilHeight
    ensures ceilHeight < MinSide ==> h == MinSide
    ensures ceilHeight > MaxHeight ==> h == MaxHeight
  {
    var inner := if MaxHeight < ceilHeight then MaxHeight else ceilHeight;
    if MinSide < inner then inner else MinSide
  }

  /** Content 301 pixels wide asks for 300. */
  lemma WidthOfThreeHundredOne()
    ensures ClampWidth(301) == 300
  {
  }

  /** Clamping a requested size again changes nothing. */
  lemma ClampIdempotent(cw: int, ch: int)
    ensures ClampWidth(ClampWidth(cw) + 1) == ClampWidth(cw)
    ensures ClampHeight(ClampHeight(ch)) == ClampHeight(ch)
  {
  }

  /** The size the page requests: the clamps of the rounded-up content box. */
  function RequestedSize(ceilWidth: int, ceilHeight: int): (s: MainProcess.Size)
    ensures s.width <= MaxWidth && s.height <= MaxHeight
  {
    MainProcess.Size(ClampWidth(ceilWidth), ClampHeight(ceilHeight))
  }

  /** No size the page requests is ever reset by the main process's runaway guard. */
  lemma RequestNeverTripsGuard(ceilWidth: int, ceilHeight: int)
    ensures MainProcess.ResizeGuard(RequestedSize(ceilWidth, ceilHeight)) == RequestedSize(ceilWidth, ceilHeight)
  {
  }

  /** What the page shows: the placeholder, or the pinned templates. */
  datatype View = Placeholder | Listing(templates: seq<Template>)

  /** Lines 144-146. */
  function Render(templates: seq<Template>): (v: View)
    ensures v.Placeholder? <==> forall i :: 0 <= i < |templates| ==> !templates[i].pinned
    ensures v.Listing? ==> v.templates == Pinned(templates) && v.templates != []
  {
    var pinned := Pinned(templates);
    if |pinned| == 0 then Placeholder else Listing(pinned)
  }

  /** Rendering a list that is already the pinned subset shows the list itself. */
  lemma RenderPinnedList(templates: seq<Template>)
    requires templates != [] && forall i :: 0 <= i < |templates| ==> templates[i].pinned
    ensures Render(templates) == Listing(templates)
  {
    PinnedKeepsPinnedList(templates);
  }

  /**
   * The stored `pinWindowSettings` object. Every field may be missing; a
   * missing field compares unequal to any present value, as `undefined`
   * does under `!==`.
   */
  datatype PinSettings = PinSettings(
    enabled: Option<bool>, position: Option<string>, opacity: Option<int>,
    showIcons: Option<bool>, buttonPosition: Option<string>)

  /** Lines 75-78. */
  predicate PinSettingsChanged(before: PinSettings, after: PinSettings) {
    before.enabled != after.enabled || before.position != after.position || before.opacity != after.opacity
  }

  /** Only `enabled`, `position` and `opacity` matter: the display fields never cause a reload. */
  lemma DisplayFieldsIgnored(before: PinSettings, after: PinSettings, icons: Option<bool>, button: Option<string>)
    ensures PinSettingsChanged(before, after) == PinSettingsChanged(before, after.(showIcons := icons, buttonPosition := button))
    ensures !PinSettingsChanged(before, before.(showIcons := icons, buttonPosition := button))
  {
  }

  /**
   * The 'storage' listener (lines 66-84): an event for the `pinWindowSettings`
   * key with a value replaces the settings, and asks for a reload when a
   * pin field changed and the bridge has the function. `newValue` is the
   * parsed value, None when the event carries none.
   */
  function OnStorage(key: string, newValue: Option<PinSettings>, current: PinSettings, hasReload: bool): (r: (PinSettings, bool))
    ensures r.0 != current ==> key == "pinWindowSettings" && newValue == Some(r.0)
    ensures r.1 ==> hasReload && r.0 != current && PinSettingsChanged(current, r.0)
    ensures key == "pinWindowSettings" && newValue.Some? ==> r.0 == newValue.value
    ensures hasReload && PinSettingsChanged(current, r.0) ==> r.1
  {
    if key == "pinWindowSettings" && newValue.Some? then
      (newValue.value, PinSettingsChanged(current, newValue.value) && hasReload)
    else (current, false)
  }

  /** The same event twice: the second one keeps the settings and never reloads. */
  lemma RepeatedEventNoReload(key: string, newValue: Option<PinSettings>, current: PinSettings, hasReload: bool)
    ensures var (after, _) := OnStorage(key, newValue, current, hasReload);
      OnStorage(key, newValue, after, hasReload) == (after, false)
  {
  }

  /** Events for other keys, or without a value, change nothing. */
  lemma OtherEventsIgnored(key: string, newValue: Option<PinSettings>, current: PinSettings, hasReload: bool)
    requires key != "pinWindowSettings" || newValue.None?
    ensures OnStorage(key, newValue, current, hasReload) == (current, false)
  {
  }
}
