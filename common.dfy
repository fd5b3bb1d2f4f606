/** Entities and small string helpers shared by the main process and the renderer. */
module Common {

  datatype Option<+T> = None | Some(value: T)

  /**
   * A clipboard template as both processes see it. Dates are epoch
   * milliseconds; `icon` and `shortcut` are the optional fields of the record.
   */
  datatype Template = Template(
    id: string,
    title: string,
    content: string,
    icon: Option<string>,
    shortcut: Option<string>,
    pinned: bool,
    createdAt: int,
    updatedAt: int)

  /** The shortcut as a string, undefined read as "" (both are falsy in the source). */
  function ShortcutOf(t: Template): (s: string)
    ensures s == "" <==> t.shortcut.None? || t.shortcut == Some("")
    ensures s != "" ==> t.shortcut == Some(s)
  {
    match t.shortcut
    case None => ""
    case Some(s) => s
  }

  predicate IsPrefix(p: string, s: string) {
    |p| <= |s| && s[..|p|] == p
  }

  /** `s.includes(q)`: q occurs in s at some position. */
  predicate Contains(s: string, q: string) {
    exists i :: 0 <= i <= |s| && IsPrefix(q, s[i..])
  }

  lemma EmptyContained(s: string)
    ensures Contains(s, "")
  {
    assert IsPrefix("", s[0..]);
  }

  function DigitChar(d: nat): (c: char)
    requires d < 10
    ensures '0' <= c <= '9'
  {
    "0123456789"[d]
  }

  /** Decimal rendering of a natural number, as JavaScript's `${n}` and `toString()`. */
  function NatToString(n: nat): (s: string)
    ensures 1 <= |s|
    ensures forall i :: 0 <= i < |s| ==> '0' <= s[i] <= '9'
    ensures n < 10 <==> |s| == 1
    ensures n >= 100 ==> |s| >= 3
    decreases n
  {
    if n < 10 then [DigitChar(n)] else NatToString(n / 10) + [DigitChar(n % 10)]
  }

  /** Reads a string of decimal digits back as a number; the inverse of NatToString. */
  function ParseDigits(s: string): nat
    requires forall i :: 0 <= i < |s| ==> '0' <= s[i] <= '9'
  {
    if s == [] then 0 else ParseDigits(s[..|s| - 1]) * 10 + (s[|s| - 1] as int - '0' as int)
  }

  lemma {:induction false} ParseNatToString(n: nat)
    ensures ParseDigits(NatToString(n)) == n
    decreases n
  {
    if n >= 10 {
      var s := NatToString(n);
      assert s[..|s| - 1] == NatToString(n / 10);
      ParseNatToString(n / 10);
    }
  }

  /** Distinct numbers have distinct decimal renderings, so ids made from distinct clocks differ. */
  lemma NatToStringInjective(m: nat, n: nat)
    requires NatToString(m) == NatToString(n)
    ensures m == n
  {
    ParseNatToString(m);
    ParseNatToString(n);
  }

  /** `templates.filter(t => t.pinned)`: the pinned templates in list order. */
  function Pinned(ts: seq<Template>): (r: seq<Template>)
    ensures |r| <= |ts|
    ensures forall i :: 0 <= i < |r| ==> r[i].pinned && r[i] in ts
    ensures forall t :: t in ts && t.pinned ==> t in r
    ensures r == [] <==> forall i :: 0 <= i < |ts| ==> !ts[i].pinned
    decreases |ts|
  {
    if ts == [] then []
    else Pinned(ts[..|ts| - 1]) + (if ts[|ts| - 1].pinned then [ts[|ts| - 1]] else [])
  }

  /** The filter keeps list order: it distributes over concatenation. */
  lemma {:induction false} PinnedAppend(a: seq<Template>, b: seq<Template>)
    ensures Pinned(a + b) == Pinned(a) + Pinned(b)
    decreases |b|
  {
    if b != [] {
      var b' := b[..|b| - 1];
      assert (a + b)[..|a + b| - 1] == a + b';
      PinnedAppend(a, b');
    } else {
      assert a + b == a;
    }
  }

  /** A list of pinned templates passes the filter unchanged, so the filter is idempotent. */
  lemma {:induction false} PinnedKeepsPinnedList(ts: seq<Template>)
    requires forall i :: 0 <= i < |ts| ==> ts[i].pinned
    ensures Pinned(ts) == ts
    decreases |ts|
  {
    if ts != [] {
      var init, last := ts[..|ts| - 1], ts[|ts| - 1];
      PinnedKeepsPinnedList(init);
      calc {
        Pinned(ts);
        Pinned(init) + [last];
        init + [last];
        { assert init + [last] == ts; }
        ts;
      }
    }
  }
}
