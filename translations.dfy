/**
 * The dotted-key lookup of the interface texts
 * (src/renderer/src/utils/translations.ts): the key is split on '.', each
 * segment goes one level deeper into the language's table, and a miss or an
 * empty text falls back to the key itself.
 */
module Translations {
  import opened Common
  import opened Strings

  /** A value in the translation tables: a text, or a table of further values. */
  datatype Node = Leaf(text: string) | Branch(children: map<string, Node>)

  /** `s.split(sep)`: the pieces between separators, empty ones included. */
  function Split(s: string, sep: char): (parts: seq<string>)
    ensures |parts| >= 1
    ensures forall i :: 0 <= i < |parts| ==> sep !in parts[i]
    decreases |s|
  {
    if s == [] then [""]
    else
      var rest := Split(s[..|s| - 1], sep);
      var c := s[|s| - 1];
      if c == sep then rest + [""]
      else rest[..|rest| - 1] + [rest[|rest| - 1] + [c]]
  }

  /** Joining the pieces with the separator gives the key back. */
  lemma {:induction false} SplitJoin(s: string, sep: char)
    ensures Join(Split(s, sep), [sep]) == s
    decreases |s|
  {
    if s != [] {
      var init := s[..|s| - 1];
      var rest := Split(init, sep);
      var c := s[|s| - 1];
      SplitJoin(init, sep);
      if c == sep {
        var parts := rest + [""];
        assert parts[..|parts| - 1] == rest;
        assert Join(parts, [sep]) == Join(rest, [sep]) + [sep] + "";
      } else {
        var front := rest[..|rest| - 1];
        var last := rest[|rest| - 1];
        var parts := front + [last + [c]];
        assert parts[..|parts| - 1] == front;
        if |rest| == 1 {
          assert Join(rest, [sep]) == last;
        } else {
          assert rest[..|rest| - 1] == front;
          assert Join(rest, [sep]) == Join(front, [sep]) + [sep] + last;
        }
      }
      assert init + [c] == s;
    }
  }

  /** A string without the separator is one piece. */
  lemma {:induction false} SplitNoSep(s: string, sep: char)
    requires sep !in s
    ensures Split(s, sep) == [s]
    decreases |s|
  {
    if s != [] {
      assert sep !in s[..|s| - 1];
      SplitNoSep(s[..|s| - 1], sep);
      assert s[..|s| - 1] + [s[|s| - 1]] == s;
    }
  }

  /** `value = value?.[k]` for each segment: None once a step misses. */
  function Walk(v: Option<Node>, keys: seq<string>): (r: Option<Node>)
    ensures v.None? ==> r.None?
    ensures keys == [] ==> r == v
    decreases |keys|
  {
    if keys == [] then v
    else
      var w := Walk(v, keys[..|keys| - 1]);
      match w
      case Some(Branch(m)) => if keys[|keys| - 1] in m then Some(m[keys[|keys| - 1]]) else None
      case _ => None
  }

  /** Walking a path in two parts is walking it in one. */
  lemma {:induction false} WalkAppend(v: Option<Node>, a: seq<string>, b: seq<string>)
    ensures Walk(v, a + b) == Walk(Walk(v, a), b)
    decreases |b|
  {
    if b == [] {
      assert a + b == a;
    } else {
      assert (a + b)[..|a + b| - 1] == a + b[..|b| - 1];
      WalkAppend(v, a, b[..|b| - 1]);
    }
  }

  /** One step of the walk. */
  function Step(w: Option<Node>, k: string): (r: Option<Node>)
    ensures r == Walk(w, [k])
  {
    assert [k][..0] == [];
    match w
    case Some(Branch(m)) => if k in m then Some(m[k]) else None
    case _ => None
  }

  /** `value || key`: a missing value or an empty text gives the key; a table is truthy and comes back as it is. */
  function Fallback(v: Option<Node>, key: string): (r: Node)
    ensures v == Some(Leaf("")) || v.None? ==> r == Leaf(key)
    ensures v.Some? && v.value != Leaf("") ==> r == v.value
  {
    match v
    case Some(Leaf(t)) => if t != "" then Leaf(t) else Leaf(key)
    case Some(Branch(m)) => Branch(m)
    case None => Leaf(key)
  }

  /** The language's table, None when the language has none. */
  function TableOf(tables: map<string, Node>, language: string): Option<Node>
  {
    if language in tables then Some(tables[language]) else None
  }

  /** `getTranslation` (lines 23-32). */
  method GetTranslation(tables: map<string, Node>, language: string, key: string) returns (r: Node)
    ensures r == Fallback(Walk(TableOf(tables, language), Split(key, '.')), key)
  {
    var keys := Split(key, '.');
    var value := TableOf(tables, language);
    var i := 0;
    while i < |keys|
      invariant 0 <= i <= |keys|
      invariant value == Walk(TableOf(tables, language), keys[..i])
    {
      WalkAppend(TableOf(tables, language), keys[..i], [keys[i]]);
      assert keys[..i + 1] == keys[..i] + [keys[i]];
      value := match value
        case Some(Branch(m)) => if keys[i] in m then Some(m[keys[i]]) else None
        case _ => None;
      i := i + 1;
    }
    assert keys[..i] == keys;
    r := match value
      case Some(Leaf(t)) => if t != "" then Leaf(t) else Leaf(key)
      case Some(Branch(m)) => Branch(m)
      case None => Leaf(key);
  }

  /** A language with no table translates every key to itself. */
  lemma UnknownLanguageGivesKey(tables: map<string, Node>, language: string, key: string)
    requires language !in tables
    ensures Fallback(Walk(TableOf(tables, language), Split(key, '.')), key) == Leaf(key)
  {
  }

  /** A key without dots that names a non-empty text in the table gives that text. */
  lemma PlainKeyFound(tables: map<string, Node>, language: string, key: string, text: string)
    requires language in tables && tables[language].Branch? && '.' !in key
    requires key in tables[language].children && tables[language].children[key] == Leaf(text) && text != ""
    ensures Fallback(Walk(TableOf(tables, language), Split(key, '.')), key) == Leaf(text)
  {
    SplitNoSep(key, '.');
    assert Walk(TableOf(tables, language), [key]) == Step(TableOf(tables, language), key);
  }

  /** Once a segment misses, the rest of the path misses too, and the key comes back. */
  lemma {:induction false} MissStaysMissed(v: Option<Node>, a: seq<string>, b: seq<string>, key: string)
    requires Walk(v, a).None?
    ensures Walk(v, a + b).None? && Fallback(Walk(v, a + b), key) == Leaf(key)
  {
    WalkAppend(v, a, b);
  }

  /** A path that walks below a text misses: texts have no segments. */
  lemma BelowTextMisses(v: Option<Node>, a: seq<string>, k: string, t: string, key: string)
    requires Walk(v, a) == Some(Leaf(t))
    ensures Fallback(Walk(v, a + [k]), key) == Leaf(key)
  {
    WalkAppend(v, a, [k]);
    assert Walk(Walk(v, a), [k]) == Step(Walk(v, a), k);
  }
}
