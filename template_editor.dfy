/**
 * The template editor form
 * (src/renderer/src/components/TemplateEditor/TemplateEditor.tsx): loading
 * a template into the form, and the check and normalisation `handleSave`
 * applies before handing the record to `onSave`.
 */
module TemplateEditor {
  import opened Common
  import opened Strings

  /** The icon used when the form's icon is blank (line 83). */
  const DefaultIcon := "📝"

  /** The record `handleSave` builds: a Template without id and createdAt. */
  datatype Draft = Draft(title: string, content: string, icon: string, shortcut: string, pinned: bool, updatedAt: int)

  /** The five form fields. */
  datatype Fields = Fields(title: string, content: string, icon: string, shortcut: string, pinned: bool)

  /** `handleSave` (lines 64-91) at time `now`: None when the save is turned down. */
  function Normalise(f: Fields, now: int): Option<Draft>
  {
    if Trim(f.title) == "" || Trim(f.content) == "" then None
    else Some(Draft(Trim(f.title), Trim(f.content), if Trim(f.icon) == "" then DefaultIcon else Trim(f.icon), Trim(f.shortcut), f.pinned, now))
  }

  /** A saved record has a title, a content and an icon, none of them blank or padded. */
  lemma SavedFieldsNonBlank(f: Fields, now: int)
    requires Normalise(f, now).Some?
    ensures Normalise(f, now).value.title != "" && Trimmed(Normalise(f, now).value.title)
    ensures Normalise(f, now).value.content != "" && Trimmed(Normalise(f, now).value.content)
    ensures Normalise(f, now).value.icon != "" && Trimmed(Normalise(f, now).value.icon)
  {
    assert Trimmed(DefaultIcon);
  }

  /** The form as it shows a saved record again. */
  function FieldsOf(d: Draft): Fields {
    Fields(d.title, d.content, d.icon, d.shortcut, d.pinned)
  }

  /** A form whose fields are already trimmed, with a title, content and icon, saves as it stands. */
  lemma NormaliseTrimmedForm(g: Fields, now: int)
    requires Trimmed(g.title) && Trimmed(g.content) && Trimmed(g.icon) && Trimmed(g.shortcut)
    requires g.title != "" && g.content != "" && g.icon != ""
    ensures Normalise(g, now) == Some(Draft(g.title, g.content, g.icon, g.shortcut, g.pinned, now))
  {
    TrimmedFixed(g.title);
    TrimmedFixed(g.content);
    TrimmedFixed(g.icon);
    TrimmedFixed(g.shortcut);
  }

  /** Saving a saved record again reproduces it, up to the time stamp. */
  lemma NormaliseIdempotent(f: Fields, now: int, later: int)
    requires Normalise(f, now).Some?
    ensures Normalise(FieldsOf(Normalise(f, now).value), later) == Some(Normalise(f, now).value.(updatedAt := later))
  {
    SavedFieldsNonBlank(f, now);
    var d := Normalise(f, now).value;
    assert Trimmed(d.shortcut);
    NormaliseTrimmedForm(FieldsOf(d), later);
  }

  predicate AllWhite(s: string) {
    forall i :: 0 <= i < |s| ==> IsWhite(s[i])
  }

  /** A save is turned down exactly when the title or the content is all white space. */
  lemma RefusedIffBlank(f: Fields, now: int)
    ensures Normalise(f, now).None? <==> AllWhite(f.title) || AllWhite(f.content)
  {
    TrimEmptyIff(f.title);
    TrimEmptyIff(f.content);
  }

  /** A saved record keeps the pin flag and the time, and its fields are the form's without the padding. */
  lemma SavedFromForm(f: Fields, now: int)
    requires Normalise(f, now).Some?
    ensures var d := Normalise(f, now).value;
      && d.pinned == f.pinned && d.updatedAt == now
      && WhiteAround(f.title, |f.title| - |TrimStart(f.title)|, d.title)
      && WhiteAround(f.content, |f.content| - |TrimStart(f.content)|, d.content)
      && WhiteAround(f.shortcut, |f.shortcut| - |TrimStart(f.shortcut)|, d.shortcut)
      && (AllWhite(f.icon) ==> d.icon == DefaultIcon)
      && (!AllWhite(f.icon) ==> WhiteAround(f.icon, |f.icon| - |TrimStart(f.icon)|, d.icon))
  {
    TrimRemovesOnlyWhite(f.icon);
    TrimRemovesOnlyWhite(f.title);
    TrimRemovesOnlyWhite(f.content);
    TrimRemovesOnlyWhite(f.shortcut);
    TrimEmptyIff(f.icon);
  }

  /** The form showing a stored template: `icon || ''` and `shortcut || ''` (lines 32-55). */
  function FormOf(t: Template): Fields {
    Fields(t.title, t.content, if t.icon.Some? then t.icon.value else "", ShortcutOf(t), t.pinned)
  }

  /** A title of blanks is turned down whatever else the form holds. */
  lemma BlankTitleRejected(f: Fields, now: int)
    requires forall i :: 0 <= i < |f.title| ==> IsWhite(f.title[i])
    ensures Normalise(f, now).None?
  {
    TrimEmptyIff(f.title);
  }

  class EditorForm {
    var title: string
    var content: string
    var icon: string
    var shortcut: string
    var pinned: bool

    constructor ()
      ensures Fields(title, content, icon, shortcut, pinned) == Fields("", "", "", "", false)
    {
      title, content, icon, shortcut, pinned := "", "", "", "", false;
    }

    function Current(): Fields
      reads this
    {
      Fields(title, content, icon, shortcut, pinned)
    }

    /** The load effect (lines 32-55): copy the template, or clear the form for a new one. */
    method Load(template: Option<Template>)
      modifies this
      ensures template.None? ==> Current() == Fields("", "", "", "", false)
      ensures template.Some? ==> Current() == FormOf(template.value)
      ensures template.Some? ==>
        && title == template.value.title && content == template.value.content && pinned == template.value.pinned
        && icon == (if template.value.icon.Some? then template.value.icon.value else "")
        && shortcut == ShortcutOf(template.value)
    {
      if template.Some? {
        var t := template.value;
        title := t.title;
        content := t.content;
        icon := if t.icon.Some? then t.icon.value else "";
        shortcut := if t.shortcut.Some? then t.shortcut.value else "";
        pinned := t.pinned;
      } else {
        title, content, icon, shortcut, pinned := "", "", "", "", false;
      }
    }

    /**
     * `handleSave` at time `now`: the record handed to `onSave`, or None when
     * the save is turned down. The form is left as it is.
     */
    method HandleSave(now: int) returns (r: Option<Draft>)
      ensures r == Normalise(Current(), now)
    {
      r := Normalise(Current(), now);
    }

    /** `handleEmojiSelect` (lines 106-109). */
    method SelectEmoji(emoji: string)
      modifies this
      ensures icon == emoji && title == old(title) && content == old(content)
      ensures shortcut == old(shortcut) && pinned == old(pinned)
    {
      icon := emoji;
    }
  }
}
