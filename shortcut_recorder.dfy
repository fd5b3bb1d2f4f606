/**
 * The shortcut recorder of the template editor
 * (src/renderer/src/components/TemplateEditor/ShortcutRecorder.tsx): key
 * presses while recording build a key list, the release of a main key runs
 * the validation chain, and an accepted shortcut goes to `onChange`.
 */
module ShortcutRecorder {
  import opened Strings
  import Common
  import ShortcutTable

  /** `e.key` values of the modifier keys themselves (lines 36 and 48). */
  const ModifierKeys: seq<string> := ["Control", "Alt", "Shift", "Meta"]

  /** The labels the recorder writes for held modifiers (line 54). */
  const ModifierLabels: seq<string> := ["Ctrl", "Alt", "Shift", "Meta"]

  const Separator := " + "

  /** Line 79. */
  const SystemShortcuts: seq<string> := ["Ctrl + C", "Ctrl + V", "Ctrl + X", "Ctrl + Z", "Ctrl + Y", "Ctrl + A", "Ctrl + S"]

  /** The position of a label in ModifierLabels, or |ModifierLabels| for any other string. */
  function LabelRank(l: string): (k: nat)
    ensures k <= |ModifierLabels|
    ensures k < |ModifierLabels| <==> l in ModifierLabels
    ensures k < |ModifierLabels| ==> ModifierLabels[k] == l
  {
    if l == "Ctrl" then 0 else if l == "Alt" then 1 else if l == "Shift" then 2 else if l == "Meta" then 3 else 4
  }

  /** The held modifiers in the fixed order Ctrl, Alt, Shift, Meta. */
  function Modifiers(ctrl: bool, alt: bool, shift: bool, meta: bool): (r: seq<string>)
    ensures forall i :: 0 <= i < |r| ==> r[i] in ModifierLabels
    ensures |r| == (if ctrl then 1 else 0) + (if alt then 1 else 0) + (if shift then 1 else 0) + (if meta then 1 else 0)
    ensures ctrl ==> r[0] == "Ctrl"
    ensures alt ==> r[if ctrl then 1 else 0] == "Alt"
    ensures shift ==> r[(if ctrl then 1 else 0) + (if alt then 1 else 0)] == "Shift"
    ensures meta ==> r[|r| - 1] == "Meta"
    ensures forall i, j :: 0 <= i < j < |r| ==> LabelRank(r[i]) < LabelRank(r[j])
  {
    (if ctrl then ["Ctrl"] else []) + (if alt then ["Alt"] else []) + (if shift then ["Shift"] else []) + (if meta then ["Meta"] else [])
  }

  /** A label is recorded exactly when its modifier is held. */
  lemma ModifiersHeld(ctrl: bool, alt: bool, shift: bool, meta: bool)
    ensures var r := Modifiers(ctrl, alt, shift, meta);
      ("Ctrl" in r <==> ctrl) && ("Alt" in r <==> alt) && ("Shift" in r <==> shift) && ("Meta" in r <==> meta)
  {
  }

  /** The key list `handleKeyDown` records for one key event (lines 27-38). */
  function RecordKeys(ctrl: bool, alt: bool, shift: bool, meta: bool, key: string): seq<string> {
    Modifiers(ctrl, alt, shift, meta) + (if key in ModifierKeys then [] else [Upper(key)])
  }

  /** `recordedKeys.some(key => !modifier labels.includes(key))` (line 54) */
  predicate HasNonModifier(keys: seq<string>) {
    exists i :: 0 <= i < |keys| && keys[i] !in ModifierLabels
  }

  /** An upper-cased key is never a modifier label: the labels have lower-case letters. */
  lemma UpperIsNoLabel(key: string)
    ensures Upper(key) !in ModifierLabels
  {
    var u := Upper(key);
    if |u| >= 2 {
      assert !('a' <= u[1] <= 'z');
    }
  }

  /** A recorded list has a main key exactly when the event's key was not a modifier. */
  lemma NonModifierIffMainKey(ctrl: bool, alt: bool, shift: bool, meta: bool, key: string)
    ensures HasNonModifier(RecordKeys(ctrl, alt, shift, meta, key)) <==> key !in ModifierKeys
  {
    var mods := Modifiers(ctrl, alt, shift, meta);
    var keys := RecordKeys(ctrl, alt, shift, meta, key);
    if key !in ModifierKeys {
      UpperIsNoLabel(key);
      assert keys[|mods|] == Upper(key);
    } else {
      assert keys == mods;
    }
  }

  /** `'+' in keys.join(" + ")` holds when two keys are joined or some key itself holds a '+'. */
  lemma {:induction false} JoinPlusIff(keys: seq<string>)
    ensures '+' in Join(keys, Separator) <==> |keys| >= 2 || exists i :: 0 <= i < |keys| && '+' in keys[i]
    decreases |keys|
  {
    if |keys| >= 2 {
      var init := keys[..|keys| - 1];
      assert Join(keys, Separator) == Join(init, Separator) + Separator + keys[|keys| - 1];
      assert (Join(init, Separator) + Separator + keys[|keys| - 1])[|Join(init, Separator)| + 1] == '+';
    } else if |keys| == 1 {
      assert Join(keys, Separator) == keys[0];
    }
  }

  /** Why a recorded shortcut is turned down, in the order the checks run. */
  datatype Rejection = NoMainKey | SameAsCurrent | UsedElsewhere | SystemShortcut

  datatype Outcome = Rejected(why: Rejection) | Accepted(shortcut: string)

  /** The validation chain of lines 51-85 for the recorded keys, the current `value` and `existingShortcuts`. */
  function Validate(keys: seq<string>, value: string, existing: seq<string>): (r: Outcome)
    ensures r == Rejected(NoMainKey) <==> !HasNonModifier(keys)
    ensures r == Rejected(SameAsCurrent) <==> HasNonModifier(keys) && Join(keys, Separator) == value
    ensures r == Rejected(UsedElsewhere) <==>
      HasNonModifier(keys) && Join(keys, Separator) != value && Join(keys, Separator) in existing
    ensures r == Rejected(SystemShortcut) <==>
      HasNonModifier(keys) && Join(keys, Separator) != value && Join(keys, Separator) !in existing
      && Join(keys, Separator) in SystemShortcuts
    ensures r.Accepted? ==> r.shortcut == Join(keys, Separator)
  {
    var shortcut := Join(keys, Separator);
    if !HasNonModifier(keys) then Rejected(NoMainKey)
    else if shortcut == value then Rejected(SameAsCurrent)
    else if shortcut in existing then Rejected(UsedElsewhere)
    else if shortcut in SystemShortcuts then Rejected(SystemShortcut)
    else Accepted(shortcut)
  }

  /** An accepted shortcut with a modifier passes the main process's format check and gets submitted. */
  lemma AcceptedWithModifierIsEligible(keys: seq<string>, value: string, existing: seq<string>)
    requires |keys| >= 2 && Validate(keys, value, existing).Accepted?
    ensures Validate(keys, value, existing).shortcut != "" && '+' in Validate(keys, value, existing).shortcut
  {
    JoinPlusIff(keys);
  }

  /**
   * A lone main key is accepted by the recorder but never reaches the OS:
   * the main process skips shortcuts without a '+'.
   */
  lemma LoneKeyAcceptedButNeverSubmitted()
    ensures Validate(["A"], "", []) == Accepted("A")
    ensures !ShortcutTable.Eligible(Common.Template("1", "t", "c", Common.None, Common.Some("A"), false, 0, 0))
  {
    assert HasNonModifier(["A"]) by {
      assert ["A"][0] !in ModifierLabels;
    }
  }

  class Recorder {
    var isRecording: bool
    var recordedKeys: seq<string>
    /** Arguments of the `onChange` calls made so far. */
    var emitted: seq<string>

    constructor ()
      ensures !isRecording && recordedKeys == [] && emitted == []
    {
      isRecording := false;
      recordedKeys := [];
      emitted := [];
    }

    /** `startRecording` (lines 123-127). */
    method StartRecording()
      modifies this
      ensures isRecording && recordedKeys == [] && emitted == old(emitted)
    {
      isRecording := true;
      recordedKeys := [];
    }

    /**
     * A key press while recording: `handleKeyDown` (lines 23-41) records the
     * keys, then `handleEscape` (lines 104-110) cancels on Escape. The
     * listeners exist only while recording.
     */
    method KeyDown(ctrl: bool, alt: bool, shift: bool, meta: bool, key: string)
      modifies this
      ensures !old(isRecording) ==> isRecording == old(isRecording) && recordedKeys == old(recordedKeys)
      ensures old(isRecording) && key != "Escape" ==> isRecording && recordedKeys == RecordKeys(ctrl, alt, shift, meta, key)
      ensures old(isRecording) && key == "Escape" ==> !isRecording && recordedKeys == []
      ensures emitted == old(emitted)
    {
      if !isRecording {
        return;
      }
      var keys: seq<string> := [];
      if ctrl { keys := keys + ["Ctrl"]; }
      var c := keys;
      if alt { keys := keys + ["Alt"]; }
      assert keys == c + (if alt then ["Alt"] else []);
      var ca := keys;
      if shift { keys := keys + ["Shift"]; }
      assert keys == ca + (if shift then ["Shift"] else []);
      var cas := keys;
      if meta { keys := keys + ["Meta"]; }
      assert keys == cas + (if meta then ["Meta"] else []);
      assert keys == (if ctrl then ["Ctrl"] else []) + (if alt then ["Alt"] else []) + (if shift then ["Shift"] else []) + (if meta then ["Meta"] else []);
      assert keys == Modifiers(ctrl, alt, shift, meta);
      if key !in ModifierKeys {
        keys := keys + [Upper(key)];
      }
      if key == "Escape" {
        isRecording, recordedKeys := false, [];
      } else {
        recordedKeys := keys;
      }
    }

    /**
     * `handleKeyUp` (lines 43-101) with its timer run to completion: the
     * release of a non-modifier key with keys recorded runs the validation;
     * every outcome stops recording and clears the keys, and only an
     * accepted shortcut reaches `onChange`.
     */
    method KeyUp(key: string, value: string, existing: seq<string>)
      modifies this
      ensures old(isRecording) && |old(recordedKeys)| > 0 && key !in ModifierKeys ==>
        && !isRecording && recordedKeys == []
        && emitted == old(emitted) + (if Validate(old(recordedKeys), value, existing).Accepted?
                                      then [Join(old(recordedKeys), Separator)] else [])
      ensures !(old(isRecording) && |old(recordedKeys)| > 0 && key !in ModifierKeys) ==>
        isRecording == old(isRecording) && recordedKeys == old(recordedKeys) && emitted == old(emitted)
    {
      if !isRecording || |recordedKeys| == 0 || key in ModifierKeys {
        return;
      }
      var outcome := Validate(recordedKeys, value, existing);
      if outcome.Accepted? {
        emitted := emitted + [outcome.shortcut];
      }
      isRecording := false;
      recordedKeys := [];
    }

    /** `clearShortcut` (lines 129-134): stop recording and hand "" to `onChange`. */
    method ClearShortcut()
      modifies this
      ensures !isRecording && recordedKeys == [] && emitted == old(emitted) + [""]
    {
      isRecording := false;
      recordedKeys := [];
      emitted := emitted + [""];
    }
  }
}
