/**
 * Icons of a template: a standard emoji is stored as itself, a bundled
 * picture as `custom:` followed by its file's base name. The picker
 * (src/renderer/src/components/TemplateEditor/EmojiPicker.tsx) makes the
 * string, the renderer (src/renderer/src/components/ui/EmojiRenderer.tsx)
 * resolves it back to a file.
 */
module Emoji {
  import opened Common

  /** The bundled pictures, in the order both components list them. */
  const EmojiFiles: seq<string> := [
    "01.gif", "02.gif", "03.gif", "04.gif", "05.gif", "06.gif",
    "07.png", "08.png", "09.gif", "10.gif", "11.gif", "12.gif",
    "13.gif", "14.gif", "15.gif"]

  const CustomPrefix := "custom:"

  /** `file.split('.')[0]`: everything before the first '.'. */
  function BaseName(file: string): (b: string)
    ensures IsPrefix(b, file) && '.' !in b
    ensures |b| < |file| ==> file[|b|] == '.'
    decreases |file|
  {
    if file == [] || file[0] == '.' then [] else [file[0]] + BaseName(file[1..])
  }

  /** Every bundled file has a two-character base name. */
  lemma BaseNamesAreTwoChars(i: nat)
    requires i < |EmojiFiles|
    ensures BaseName(EmojiFiles[i]) == EmojiFiles[i][..2]
  {
    FileDigits(i);
    DotAtTwo(EmojiFiles[i]);
  }

  /** A name with its first '.' at index 2 has a two-character base name. */
  lemma DotAtTwo(f: string)
    requires |f| > 2 && f[0] != '.' && f[1] != '.' && f[2] == '.'
    ensures BaseName(f) == f[..2]
  {
    assert BaseName(f) == [f[0]] + ([f[1]] + BaseName(f[2..]));
  }

  /**
   * `handleCustomEmojiClick` (lines 63-74): the base name of the file at the
   * index, or the decimal of index + 1 when there is no file there.
   */
  function CustomIconFor(index: nat): (icon: string)
    ensures IsPrefix(CustomPrefix, icon)
    ensures index < |EmojiFiles| ==> icon == CustomPrefix + EmojiFiles[index][..2]
    ensures index >= |EmojiFiles| ==> icon[|CustomPrefix|..] == NatToString(index + 1)
  {
    if index < |EmojiFiles| then
      BaseNamesAreTwoChars(index);
      var name, fallback := BaseName(EmojiFiles[index]), NatToString(index + 1);
      CustomPrefix + (if name != "" then name else fallback)
    else CustomPrefix + NatToString(index + 1)
  }

  /** A click in the picker: a standard emoji, or the custom picture at an index. */
  datatype Click = Standard(emoji: string) | Custom(index: nat)

  /** The string handed to `onEmojiSelect` (lines 58-61 and 63-74). */
  function Selected(c: Click): (icon: string)
    ensures c.Standard? ==> icon == c.emoji
    ensures c.Custom? ==> IsPrefix(CustomPrefix, icon)
  {
    match c
    case Standard(e) => e
    case Custom(i) => CustomIconFor(i)
  }

  /** What the renderer shows. */
  datatype Rendering = Text(text: string) | Image(file: string) | Nothing

  /** `files.find(file => file.startsWith(name))` over the files from index k on. */
  function FindFrom(files: seq<string>, name: string, k: nat): (r: Option<nat>)
    requires k <= |files|
    ensures r.Some? ==> k <= r.value < |files| && IsPrefix(name, files[r.value])
    ensures r.Some? ==> forall j :: k <= j < r.value ==> !IsPrefix(name, files[j])
    ensures r.None? <==> forall j :: k <= j < |files| ==> !IsPrefix(name, files[j])
    decreases |files| - k
  {
    if k == |files| then None
    else if IsPrefix(name, files[k]) then Some(k)
    else FindFrom(files, name, k + 1)
  }

  /**
   * `EmojiRenderer` (lines 45-82): a `custom:` string shows the first file
   * whose name starts with what follows the prefix, or nothing; any other
   * string shows as text.
   */
  function Render(emoji: string): (r: Rendering)
    ensures !IsPrefix(CustomPrefix, emoji) <==> r == Text(emoji)
    ensures r.Image? ==> r.file in EmojiFiles
  {
    if IsPrefix(CustomPrefix, emoji) then
      match FindFrom(EmojiFiles, emoji[|CustomPrefix|..], 0)
      case Some(k) => Image(EmojiFiles[k])
      case None => Nothing
    else Text(emoji)
  }

  /** File i is named after i + 1 in two decimal digits. */
  lemma FileDigits(i: nat)
    requires i < |EmojiFiles|
    ensures |EmojiFiles[i]| == 6 && EmojiFiles[i][2] == '.'
    ensures EmojiFiles[i][0] == (if i < 9 then '0' else '1')
    ensures EmojiFiles[i][1] as int - '0' as int == (i + 1) % 10
  {
  }

  /** Two distinct bundled files never share their first two characters. */
  lemma TwoCharsDistinct(i: nat, j: nat)
    requires i < |EmojiFiles| && j < |EmojiFiles| && i != j
    ensures !IsPrefix(EmojiFiles[i][..2], EmojiFiles[j])
  {
    FileDigits(i);
    FileDigits(j);
    assert EmojiFiles[i][..2] == [EmojiFiles[i][0], EmojiFiles[i][1]];
    assert EmojiFiles[j][..2] == [EmojiFiles[j][0], EmojiFiles[j][1]];
  }

  /** The picture the picker offers at index i is the one the renderer shows for its icon. */
  lemma CustomRoundTrip(i: nat)
    requires i < |EmojiFiles|
    ensures Render(CustomIconFor(i)) == Image(EmojiFiles[i])
  {
    var icon := CustomIconFor(i);
    var name := EmojiFiles[i][..2];
    assert icon[|CustomPrefix|..] == name;
    forall j | 0 <= j < i
      ensures !IsPrefix(name, EmojiFiles[j])
    {
      TwoCharsDistinct(i, j);
    }
    assert IsPrefix(name, EmojiFiles[i]);
    FindFromFirstMatch(EmojiFiles, name, 0, i);
  }

  /** When the first match from k on is at i, the search from k finds i. */
  lemma {:induction false} FindFromFirstMatch(files: seq<string>, name: string, k: nat, i: nat)
    requires k <= i < |files| && IsPrefix(name, files[i])
    requires forall j :: k <= j < i ==> !IsPrefix(name, files[j])
    ensures FindFrom(files, name, k) == Some(i)
    decreases i - k
  {
    if k < i {
      FindFromFirstMatch(files, name, k + 1, i);
    }
  }

  /** The icon the picker makes for an index past the file list shows nothing. */
  lemma OutOfRangeShowsNothing(i: nat)
    requires i >= |EmojiFiles|
    ensures Render(CustomIconFor(i)) == Nothing
  {
    var name := NatToString(i + 1);
    assert CustomIconFor(i)[|CustomPrefix|..] == name;
    forall j | 0 <= j < |EmojiFiles|
      ensures !IsPrefix(name, EmojiFiles[j])
    {
      NoFileStartsWith(i + 1, j);
    }
  }

  /** No file name starts with the decimal of a number above 15. */
  lemma NoFileStartsWith(n: nat, j: nat)
    requires n >= 16 && j < |EmojiFiles|
    ensures !IsPrefix(NatToString(n), EmojiFiles[j])
  {
    var s := NatToString(n);
    var f := EmojiFiles[j];
    if n >= 100 {
      assert f[2] == '.';
      assert s[2] != f[2];
    } else {
      assert s == [DigitChar(n / 10), DigitChar(n % 10)];
      assert f[..2] == [f[0], f[1]];
      if n / 10 == 1 {
        assert n % 10 >= 6;
      }
    }
  }

  /** "custom:16", the icon for index 15, names no file. */
  lemma SixteenShowsNothing()
    ensures Render("custom:16") == Nothing
  {
    assert NatToString(16) == "16";
    assert "custom:16" == CustomIconFor(15);
    OutOfRangeShowsNothing(15);
  }

  /** A name that is only a prefix of base names matches the first such file. */
  lemma PrefixNameShowsFirstMatch()
    ensures Render("custom:1") == Image("10.gif")
  {
    assert "custom:1"[|CustomPrefix|..] == "1";
    forall j | 0 <= j < 9
      ensures !IsPrefix("1", EmojiFiles[j])
    {
      FileDigits(j);
    }
    assert IsPrefix("1", EmojiFiles[9]);
    FindFromFirstMatch(EmojiFiles, "1", 0, 9);
  }

  /** The bare prefix matches every file, so it shows the first one. */
  lemma EmptyNameShowsFirstFile()
    ensures Render("custom:") == Image("01.gif")
  {
    assert "custom:"[|CustomPrefix|..] == "";
    assert IsPrefix("", EmojiFiles[0]);
    FindFromFirstMatch(EmojiFiles, "", 0, 0);
  }

  /** A standard emoji is stored as itself and shown as text. */
  lemma StandardShownAsText(e: string)
    requires !IsPrefix(CustomPrefix, e)
    ensures Render(Selected(Standard(e))) == Text(e)
  {
  }

  /** Every picked icon shows: as text, or as the picture it was picked as. */
  lemma PickedIconShows(c: Click)
    requires c.Standard? ==> !IsPrefix(CustomPrefix, c.emoji)
    requires c.Custom? ==> c.index < |EmojiFiles|
    ensures c.Standard? ==> Render(Selected(c)) == Text(c.emoji)
    ensures c.Custom? ==> Render(Selected(c)) == Image(EmojiFiles[c.index])
  {
    if c.Custom? {
      CustomRoundTrip(c.index);
    }
  }
}
