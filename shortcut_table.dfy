/**
 * The main process's table of global shortcuts (src/main/index.ts): one pass of
 * the `register-global-shortcuts` loop as a function of the template list and
 * of the answers the OS gives to each registration call, and the 300 ms
 * debounce applied when a bound shortcut fires.
 */
module ShortcutTable {
  import opened Common

  const DebounceMs: int := 300

  /** One `registeredShortcuts` entry: accelerator -> owning template id. */
  datatype Entry = Entry(shortcut: string, templateId: string)

  /** What the OS-side callback captured at registration: the template and the autoPaste flag. */
  datatype Handler = Handler(template: Template, autoPaste: bool)

  /** The OS answer to `globalShortcut.register`: bound, refused (returns false), or an exception. */
  datatype OsAnswer = Bound | Refused | Threw

  /**
   * The state of a pass: the table in insertion order, the OS bindings made,
   * the indices of the templates for which the OS was asked, and whether an
   * exception ended the loop.
   */
  datatype Pass = Pass(entries: seq<Entry>, bindings: map<string, Handler>, attempts: seq<nat>, aborted: bool)

  const EmptyPass := Pass([], map[], [], false)

  /** `registeredShortcuts.has(s)` */
  predicate Claimed(entries: seq<Entry>, s: string) {
    exists k :: 0 <= k < |entries| && entries[k].shortcut == s
  }

  /** A template the loop would hand to the OS if nobody claimed its shortcut yet. */
  predicate Eligible(t: Template) {
    ShortcutOf(t) != "" && '+' in ShortcutOf(t)
  }

  /** One iteration of the loop at src/main/index.ts:321-424, for template `t` at index `i`. */
  function Step(p: Pass, t: Template, i: nat, answer: OsAnswer, autoPaste: bool): Pass {
    var s := ShortcutOf(t);
    if p.aborted || s == "" || Claimed(p.entries, s) || '+' !in s then p
    else match answer
      case Bound => Pass(p.entries + [Entry(s, t.id)], p.bindings[s := Handler(t, autoPaste)], p.attempts + [i], false)
      case Refused => p.(attempts := p.attempts + [i])
      case Threw => p.(attempts := p.attempts + [i], aborted := true)
  }

  /** The pass over the first `n` templates, starting from the cleared table. */
  function RebuildPrefix(ts: seq<Template>, answers: seq<OsAnswer>, autoPaste: bool, n: nat): Pass
    requires n <= |ts| == |answers|
    decreases n
  {
    if n == 0 then EmptyPass
    else Step(RebuildPrefix(ts, answers, autoPaste, n - 1), ts[n - 1], n - 1, answers[n - 1], autoPaste)
  }

  function Rebuild(ts: seq<Template>, answers: seq<OsAnswer>, autoPaste: bool): Pass
    requires |ts| == |answers|
  {
    RebuildPrefix(ts, answers, autoPaste, |ts|)
  }

  // ---------------------------------------------------------------------------
  // Reference characterisation of a pass

  predicate NoThrow(answers: seq<OsAnswer>) {
    forall k :: 0 <= k < |answers| ==> answers[k] != Threw
  }

  /** Some template before index n had shortcut s accepted by the OS. */
  predicate AcceptedAmong(ts: seq<Template>, answers: seq<OsAnswer>, n: nat, s: string)
    requires n <= |ts| == |answers|
  {
    exists k :: 0 <= k < n && answers[k] == Bound && Eligible(ts[k]) && ShortcutOf(ts[k]) == s
  }

  /** The OS accepted template j's shortcut when the loop submitted it. */
  predicate Accepted(ts: seq<Template>, answers: seq<OsAnswer>, j: nat)
    requires j < |ts| == |answers|
  {
    Eligible(ts[j]) && answers[j] == Bound
  }

  /** Template j is the first successful claimant of its shortcut. */
  predicate Wins(ts: seq<Template>, answers: seq<OsAnswer>, j: nat)
    requires j < |ts| == |answers|
  {
    Accepted(ts, answers, j) && !AcceptedAmong(ts, answers, j, ShortcutOf(ts[j]))
  }

  predicate DistinctKeys(entries: seq<Entry>) {
    forall a, b :: 0 <= a < b < |entries| ==> entries[a].shortcut != entries[b].shortcut
  }

  function EntryOf(t: Template): Entry {
    Entry(ShortcutOf(t), t.id)
  }

  /** Number of attempted indices whose OS answer was Bound. */
  function CountBound(xs: seq<nat>, answers: seq<OsAnswer>): nat {
    if xs == [] then 0
    else
      var k := xs[|xs| - 1];
      CountBound(xs[..|xs| - 1], answers) + (if k < |answers| && answers[k] == Bound then 1 else 0)
  }

  lemma ClaimedAppend(entries: seq<Entry>, e: Entry, s: string)
    ensures Claimed(entries + [e], s) <==> Claimed(entries, s) || e.shortcut == s
  {
    if Claimed(entries, s) {
      var k :| 0 <= k < |entries| && entries[k].shortcut == s;
      assert (entries + [e])[k].shortcut == s;
    }
    if e.shortcut == s {
      assert (entries + [e])[|entries|].shortcut == s;
    }
  }

  /** Attempts are template indices in increasing order, below the prefix length. */
  lemma {:induction false} AttemptsWellFormed(ts: seq<Template>, answers: seq<OsAnswer>, ap: bool, n: nat)
    requires n <= |ts| == |answers|
    ensures forall k :: 0 <= k < |RebuildPrefix(ts, answers, ap, n).attempts| ==> RebuildPrefix(ts, answers, ap, n).attempts[k] < n
    ensures forall k, l :: 0 <= k < l < |RebuildPrefix(ts, answers, ap, n).attempts| ==> RebuildPrefix(ts, answers, ap, n).attempts[k] < RebuildPrefix(ts, answers, ap, n).attempts[l]
    decreases n
  {
    if n > 0 {
      AttemptsWellFormed(ts, answers, ap, n - 1);
      var p := RebuildPrefix(ts, answers, ap, n - 1);
      var a := RebuildPrefix(ts, answers, ap, n).attempts;
      assert a == p.attempts || a == p.attempts + [n - 1];
      if a != p.attempts {
        forall k | 0 <= k < |a| ensures a[k] < n {
          if k < |p.attempts| { assert a[k] == p.attempts[k]; }
        }
        forall k, l | 0 <= k < l < |a| ensures a[k] < a[l] {
          assert a[k] == p.attempts[k];
          if l < |p.attempts| { assert a[l] == p.attempts[l]; }
        }
      }
    }
  }

  /** An exception ends the loop: later templates change nothing. */
  lemma {:induction false} AbortFreezes(ts: seq<Template>, answers: seq<OsAnswer>, ap: bool, n: nat, m: nat)
    requires n <= m <= |ts| == |answers|
    requires RebuildPrefix(ts, answers, ap, n).aborted
    ensures RebuildPrefix(ts, answers, ap, m) == RebuildPrefix(ts, answers, ap, n)
    decreases m
  {
    if m > n {
      AbortFreezes(ts, answers, ap, n, m - 1);
    }
  }

  /** Without exceptions the pass runs to the end. */
  lemma {:induction false} NoThrowNoAbort(ts: seq<Template>, answers: seq<OsAnswer>, ap: bool, n: nat)
    requires n <= |ts| == |answers|
    requires NoThrow(answers)
    ensures !RebuildPrefix(ts, answers, ap, n).aborted
    decreases n
  {
    if n > 0 {
      NoThrowNoAbort(ts, answers, ap, n - 1);
    }
  }

  /** No accelerator is recorded twice, whatever the OS answers. */
  lemma {:induction false} KeysDistinct(ts: seq<Template>, answers: seq<OsAnswer>, ap: bool, n: nat)
    requires n <= |ts| == |answers|
    ensures DistinctKeys(RebuildPrefix(ts, answers, ap, n).entries)
    decreases n
  {
    if n > 0 {
      KeysDistinct(ts, answers, ap, n - 1);
      var p := RebuildPrefix(ts, answers, ap, n - 1);
      var s := ShortcutOf(ts[n - 1]);
      if !p.aborted && s != "" && !Claimed(p.entries, s) && '+' in s && answers[n - 1] == Bound {
        var q := p.entries + [Entry(s, ts[n - 1].id)];
        forall a, b | 0 <= a < b < |q| ensures q[a].shortcut != q[b].shortcut {
          if b == |p.entries| {
            assert q[a] == p.entries[a];
          }
        }
      }
    }
  }

  /** Whether the n-th iteration records its template (the loop's guards, in the source's order). */
  predicate Records(p: Pass, t: Template, answer: OsAnswer) {
    var s := ShortcutOf(t);
    !p.aborted && s != "" && !Claimed(p.entries, s) && '+' in s && answer == Bound
  }

  lemma StepEntries(ts: seq<Template>, answers: seq<OsAnswer>, ap: bool, n: nat)
    requires 0 < n <= |ts| == |answers|
    ensures var p := RebuildPrefix(ts, answers, ap, n - 1);
      if Records(p, ts[n - 1], answers[n - 1]) then
        RebuildPrefix(ts, answers, ap, n).entries == p.entries + [EntryOf(ts[n - 1])]
        && RebuildPrefix(ts, answers, ap, n).bindings == p.bindings[ShortcutOf(ts[n - 1]) := Handler(ts[n - 1], ap)]
      else
        RebuildPrefix(ts, answers, ap, n).entries == p.entries
        && RebuildPrefix(ts, answers, ap, n).bindings == p.bindings
  {
  }

  /**
   * The OS bindings are exactly the recorded accelerators, each calling back
   * into the template recorded for it.
   */
  ghost predicate BindingsMatch(p: Pass) {
    && (forall s :: s in p.bindings <==> Claimed(p.entries, s))
    && (forall e :: 0 <= e < |p.entries| ==>
         && p.entries[e].shortcut in p.bindings
         && EntryOf(p.bindings[p.entries[e].shortcut].template) == p.entries[e])
  }

  lemma StepKeepsBindingsMatch(p: Pass, t: Template, i: nat, answer: OsAnswer, ap: bool)
    requires BindingsMatch(p)
    ensures BindingsMatch(Step(p, t, i, answer, ap))
  {
    var r := Step(p, t, i, answer, ap);
    if Records(p, t, answer) {
      assert r.entries == p.entries + [EntryOf(t)];
      forall x ensures x in r.bindings <==> Claimed(r.entries, x) {
        ClaimedAppend(p.entries, EntryOf(t), x);
      }
      forall e | 0 <= e < |r.entries|
        ensures r.entries[e].shortcut in r.bindings
        ensures EntryOf(r.bindings[r.entries[e].shortcut].template) == r.entries[e]
      {
        if e < |p.entries| {
          assert r.entries[e] == p.entries[e];
          assert Claimed(p.entries, p.entries[e].shortcut);
        }
      }
    }
  }

  /** BindingsMatch holds after every prefix of the pass. */
  lemma {:induction false} BindingsMatchEntries(ts: seq<Template>, answers: seq<OsAnswer>, ap: bool, n: nat)
    requires n <= |ts| == |answers|
    ensures BindingsMatch(RebuildPrefix(ts, answers, ap, n))
    decreases n
  {
    if n > 0 {
      BindingsMatchEntries(ts, answers, ap, n - 1);
      StepKeepsBindingsMatch(RebuildPrefix(ts, answers, ap, n - 1), ts[n - 1], n - 1, answers[n - 1], ap);
    }
  }

  /** x is the shortcut and id of a template before index n that the OS accepted. */
  ghost predicate AcceptedEntry(ts: seq<Template>, answers: seq<OsAnswer>, n: nat, x: Entry)
    requires n <= |ts| == |answers|
  {
    exists j :: 0 <= j < n && Accepted(ts, answers, j) && x == EntryOf(ts[j])
  }

  /** Every entry is the shortcut and id of a template before index n that the OS accepted. */
  ghost predicate FromAccepted(entries: seq<Entry>, ts: seq<Template>, answers: seq<OsAnswer>, n: nat)
    requires n <= |ts| == |answers|
  {
    forall e :: 0 <= e < |entries| ==> AcceptedEntry(ts, answers, n, entries[e])
  }

  /** Every recorded entry is the shortcut and id of an eligible template the OS accepted. */
  lemma {:induction false} EntriesAreEligible(ts: seq<Template>, answers: seq<OsAnswer>, ap: bool, n: nat)
    requires n <= |ts| == |answers|
    ensures FromAccepted(RebuildPrefix(ts, answers, ap, n).entries, ts, answers, n)
    decreases n
  {
    if n > 0 {
      EntriesAreEligible(ts, answers, ap, n - 1);
      StepEntries(ts, answers, ap, n);
      var p := RebuildPrefix(ts, answers, ap, n - 1).entries;
      var q := RebuildPrefix(ts, answers, ap, n).entries;
      forall e | 0 <= e < |q|
        ensures AcceptedEntry(ts, answers, n, q[e])
      {
        if e < |p| {
          assert q[e] == p[e];
          assert AcceptedEntry(ts, answers, n - 1, p[e]);
          var j :| 0 <= j < n - 1 && Accepted(ts, answers, j) && p[e] == EntryOf(ts[j]);
          assert 0 <= j < n && Accepted(ts, answers, j) && q[e] == EntryOf(ts[j]);
        } else {
          assert Accepted(ts, answers, n - 1) && q[e] == EntryOf(ts[n - 1]);
        }
      }
    }
  }

  /** The table's accelerators are exactly the eligible shortcuts the OS accepted. */
  lemma ClaimedIff(ts: seq<Template>, answers: seq<OsAnswer>, ap: bool, n: nat)
    requires n <= |ts| == |answers|
    requires NoThrow(answers)
    ensures forall s :: Claimed(RebuildPrefix(ts, answers, ap, n).entries, s) <==> AcceptedAmong(ts, answers, n, s)
  {
    forall s ensures Claimed(RebuildPrefix(ts, answers, ap, n).entries, s) <==> AcceptedAmong(ts, answers, n, s) {
      ClaimedIffAt(ts, answers, ap, n, s);
    }
  }

  /** ClaimedIff for one accelerator. */
  lemma {:induction false} ClaimedIffAt(ts: seq<Template>, answers: seq<OsAnswer>, ap: bool, n: nat, s: string)
    requires n <= |ts| == |answers|
    requires NoThrow(answers)
    ensures Claimed(RebuildPrefix(ts, answers, ap, n).entries, s) <==> AcceptedAmong(ts, answers, n, s)
    decreases n
  {
    if n == 0 {
      assert RebuildPrefix(ts, answers, ap, n).entries == [];
    } else {
      ClaimedIffAt(ts, answers, ap, n - 1, s);
      NoThrowNoAbort(ts, answers, ap, n - 1);
      StepEntries(ts, answers, ap, n);
      var p := RebuildPrefix(ts, answers, ap, n - 1);
      ClaimedAppend(p.entries, EntryOf(ts[n - 1]), s);
      if AcceptedAmong(ts, answers, n - 1, s) {
        var k :| 0 <= k < n - 1 && answers[k] == Bound && Eligible(ts[k]) && ShortcutOf(ts[k]) == s;
        assert 0 <= k < n;
      }
      if AcceptedAmong(ts, answers, n, s) && !AcceptedAmong(ts, answers, n - 1, s) {
        var k :| 0 <= k < n && answers[k] == Bound && Eligible(ts[k]) && ShortcutOf(ts[k]) == s;
        assert k == n - 1;
      }
    }
  }

  /** With no exception, iteration j records its template exactly when it is the first accepted claimant. */
  lemma RecordsIffWins(ts: seq<Template>, answers: seq<OsAnswer>, ap: bool, n: nat)
    requires 0 < n <= |ts| == |answers|
    requires NoThrow(answers)
    ensures Records(RebuildPrefix(ts, answers, ap, n - 1), ts[n - 1], answers[n - 1]) <==> Wins(ts, answers, n - 1)
  {
    ClaimedIffAt(ts, answers, ap, n - 1, ShortcutOf(ts[n - 1]));
    NoThrowNoAbort(ts, answers, ap, n - 1);
  }

  ghost predicate FromWinners(entries: seq<Entry>, ts: seq<Template>, answers: seq<OsAnswer>, n: nat)
    requires n <= |ts| == |answers|
  {
    forall e :: 0 <= e < |entries| ==> exists j :: 0 <= j < n && Wins(ts, answers, j) && entries[e] == EntryOf(ts[j])
  }

  /**
   * First-wins among successful registrations, one direction: every entry is
   * the entry of the first OS-accepted claimant of its accelerator.
   */
  lemma {:induction false} EntriesFromWinners(ts: seq<Template>, answers: seq<OsAnswer>, ap: bool, n: nat)
    requires n <= |ts| == |answers|
    requires NoThrow(answers)
    ensures FromWinners(RebuildPrefix(ts, answers, ap, n).entries, ts, answers, n)
    decreases n
  {
    if n > 0 {
      EntriesFromWinners(ts, answers, ap, n - 1);
      RecordsIffWins(ts, answers, ap, n);
      StepEntries(ts, answers, ap, n);
      var p := RebuildPrefix(ts, answers, ap, n - 1).entries;
      var q := RebuildPrefix(ts, answers, ap, n).entries;
      forall e | 0 <= e < |q| ensures exists j :: 0 <= j < n && Wins(ts, answers, j) && q[e] == EntryOf(ts[j]) {
        if e < |p| {
          assert q[e] == p[e];
          var j :| 0 <= j < n - 1 && Wins(ts, answers, j) && p[e] == EntryOf(ts[j]);
          assert 0 <= j < n && Wins(ts, answers, j) && q[e] == EntryOf(ts[j]);
        } else {
          assert q[e] == EntryOf(ts[n - 1]) && Wins(ts, answers, n - 1);
        }
      }
      assert FromWinners(q, ts, answers, n);
    } else {
      assert RebuildPrefix(ts, answers, ap, n).entries == [];
    }
  }

  /** First-wins, the other direction: the first OS-accepted claimant of each accelerator is in the table. */
  lemma {:induction false} WinnersRecorded(ts: seq<Template>, answers: seq<OsAnswer>, ap: bool, n: nat)
    requires n <= |ts| == |answers|
    requires NoThrow(answers)
    ensures forall j :: 0 <= j < n && Wins(ts, answers, j) ==> EntryOf(ts[j]) in RebuildPrefix(ts, answers, ap, n).entries
    decreases n
  {
    if n > 0 {
      WinnersRecorded(ts, answers, ap, n - 1);
      RecordsIffWins(ts, answers, ap, n);
      StepEntries(ts, answers, ap, n);
      var p := RebuildPrefix(ts, answers, ap, n - 1).entries;
      var q := RebuildPrefix(ts, answers, ap, n).entries;
      assert q[..|p|] == p;
      forall j | 0 <= j < n && Wins(ts, answers, j) ensures EntryOf(ts[j]) in q {
        if j < n - 1 {
          assert EntryOf(ts[j]) in q[..|p|];
        } else {
          assert q[|p|] == EntryOf(ts[j]);
        }
      }
    }
  }

  /**
   * The OS is asked exactly for the eligible templates whose shortcut no
   * earlier template got accepted: a duplicate of an accepted shortcut is
   * never submitted, a duplicate of a refused one is submitted again.
   */
  lemma AttemptsIff(ts: seq<Template>, answers: seq<OsAnswer>, ap: bool, n: nat)
    requires n <= |ts| == |answers|
    requires NoThrow(answers)
    ensures SubmittedExactly(RebuildPrefix(ts, answers, ap, n).attempts, ts, answers, n)
  {
    forall j ensures j in RebuildPrefix(ts, answers, ap, n).attempts <==>
      0 <= j < n && Eligible(ts[j]) && !AcceptedAmong(ts, answers, j, ShortcutOf(ts[j])) {
      AttemptsIffAt(ts, answers, ap, n, j);
    }
  }

  /** AttemptsIff for one index j. */
  lemma {:induction false} AttemptsIffAt(ts: seq<Template>, answers: seq<OsAnswer>, ap: bool, n: nat, j: int)
    requires n <= |ts| == |answers|
    requires NoThrow(answers)
    ensures j in RebuildPrefix(ts, answers, ap, n).attempts <==>
      0 <= j < n && Eligible(ts[j]) && !AcceptedAmong(ts, answers, j, ShortcutOf(ts[j]))
    decreases n
  {
    if n == 0 {
      assert RebuildPrefix(ts, answers, ap, n).attempts == [];
    } else {
      NoThrowNoAbort(ts, answers, ap, n - 1);
      AttemptsStep(ts, answers, ap, n);
      AttemptsWellFormed(ts, answers, ap, n - 1);
      var p := RebuildPrefix(ts, answers, ap, n - 1).attempts;
      if j == n - 1 {
        assert j !in p;
        ClaimedIffAt(ts, answers, ap, n - 1, ShortcutOf(ts[n - 1]));
      } else {
        AttemptsIffAt(ts, answers, ap, n - 1, j);
      }
    }
  }

  /** The indices submitted to the OS are exactly the listed ones. */
  ghost predicate SubmittedExactly(attempts: seq<nat>, ts: seq<Template>, answers: seq<OsAnswer>, n: nat)
    requires n <= |ts| == |answers|
  {
    forall j :: j in attempts <==> 0 <= j < n && Eligible(ts[j]) && !AcceptedAmong(ts, answers, j, ShortcutOf(ts[j]))
  }

  /** An iteration that is not behind an exception submits its template exactly when it is eligible and unclaimed. */
  lemma AttemptsStep(ts: seq<Template>, answers: seq<OsAnswer>, ap: bool, n: nat)
    requires 0 < n <= |ts| == |answers|
    requires !RebuildPrefix(ts, answers, ap, n - 1).aborted
    ensures var p := RebuildPrefix(ts, answers, ap, n - 1);
      RebuildPrefix(ts, answers, ap, n).attempts
        == p.attempts + (if Eligible(ts[n - 1]) && !Claimed(p.entries, ShortcutOf(ts[n - 1])) then [n - 1] else [])
  {
  }

  /** The table's size is the number of OS calls that bound. */
  predicate Counted(p: Pass, answers: seq<OsAnswer>) {
    |p.entries| == CountBound(p.attempts, answers)
  }

  /** One iteration keeps the table's size equal to the number of OS calls that bound. */
  lemma StepCount(p: Pass, t: Template, answers: seq<OsAnswer>, i: nat, ap: bool)
    requires i < |answers| && Counted(p, answers)
    ensures Counted(Step(p, t, i, answers[i], ap), answers)
  {
    var r := Step(p, t, i, answers[i], ap);
    if r.attempts != p.attempts {
      assert r.attempts[..|r.attempts| - 1] == p.attempts;
    }
  }

  /** registeredCount (the table's size) is the number of OS calls that bound. */
  lemma {:induction false} CountIsSuccesses(ts: seq<Template>, answers: seq<OsAnswer>, ap: bool, n: nat)
    requires n <= |ts| == |answers|
    ensures Counted(RebuildPrefix(ts, answers, ap, n), answers)
    decreases n
  {
    if n > 0 {
      CountIsSuccesses(ts, answers, ap, n - 1);
      StepCount(RebuildPrefix(ts, answers, ap, n - 1), ts[n - 1], answers, n - 1, ap);
    }
  }

  /** An empty template list registers nothing. */
  lemma EmptyListRegistersNothing(ap: bool)
    ensures Rebuild([], [], ap).entries == [] && Rebuild([], [], ap).bindings == map[]
    ensures Rebuild([], [], ap).attempts == [] && !Rebuild([], [], ap).aborted
  {
  }

  /**
   * The loop of src/main/index.ts:321-424 over a cleared table: each
   * template is handed to the OS unless its shortcut is empty, already
   * recorded or has no '+'; an exception ends the loop at once.
   */
  method RegisterAll(ts: seq<Template>, answers: seq<OsAnswer>, autoPaste: bool)
    returns (entries: seq<Entry>, bindings: map<string, Handler>, aborted: bool)
    requires |ts| == |answers|
    ensures entries == Rebuild(ts, answers, autoPaste).entries
    ensures bindings == Rebuild(ts, answers, autoPaste).bindings
    ensures aborted == Rebuild(ts, answers, autoPaste).aborted
  {
    entries, bindings, aborted := [], map[], false;
    var i := 0;
    while i < |ts|
      invariant 0 <= i <= |ts|
      invariant entries == RebuildPrefix(ts, answers, autoPaste, i).entries
      invariant bindings == RebuildPrefix(ts, answers, autoPaste, i).bindings
      invariant !RebuildPrefix(ts, answers, autoPaste, i).aborted
    {
      var t := ts[i];
      var s := ShortcutOf(t);
      if s != "" && !Claimed(entries, s) && '+' in s {
        match answers[i]
        case Bound =>
          bindings := bindings[s := Handler(t, autoPaste)];
          entries := entries + [Entry(s, t.id)];
        case Refused =>
        case Threw =>
          AbortFreezes(ts, answers, autoPaste, i + 1, |ts|);
          return entries, bindings, true;
      }
      i := i + 1;
    }
  }

  // ---------------------------------------------------------------------------
  // Debounce of a firing (src/main/index.ts:341-348)

  /** `lastShortcutTime.get(s) || 0` */
  function LastFired(last: map<string, int>, s: string): int {
    if s in last then last[s] else 0
  }

  /** Whether a firing at `now` is delivered, and the new `lastShortcutTime`. */
  function Debounce(last: map<string, int>, s: string, now: int): (r: (bool, map<string, int>))
    ensures forall x :: x != s ==> LastFired(r.1, x) == LastFired(last, x)
    ensures r.0 ==> LastFired(r.1, s) == now
    ensures !r.0 ==> r.1 == last
  {
    if now - LastFired(last, s) < DebounceMs then (false, last) else (true, last[s := now])
  }

  /** A second firing less than 300 ms after a delivered one is swallowed and changes nothing. */
  lemma SecondFiringSwallowed(last: map<string, int>, s: string, t1: int, t2: int)
    requires Debounce(last, s, t1).0
    requires t1 <= t2 < t1 + DebounceMs
    ensures !Debounce(Debounce(last, s, t1).1, s, t2).0
    ensures Debounce(Debounce(last, s, t1).1, s, t2).1 == Debounce(last, s, t1).1
  {
  }

  /** Two firings at least 300 ms apart are both delivered. */
  lemma SpacedFiringsDelivered(last: map<string, int>, s: string, t1: int, t2: int)
    requires Debounce(last, s, t1).0
    requires t2 >= t1 + DebounceMs
    ensures Debounce(Debounce(last, s, t1).1, s, t2).0
  {
  }

  /** A shortcut never fired before is delivered at any time from 300 ms after the epoch. */
  lemma FirstFiringDelivered(last: map<string, int>, s: string, now: int)
    requires s !in last && now >= DebounceMs
    ensures Debounce(last, s, now).0
  {
  }
}
