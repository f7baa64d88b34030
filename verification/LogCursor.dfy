/** Following logs by polling: every poll sees a window of an append-only log whose front may have been
    trimmed, and prints what comes after the last line printed before.

    The resume position is the text of that line, searched for from the end of the window. */
module LogCursor {

  type Line = string

  datatype Cursor = Cursor(lastPrinted: Line, haveLast: bool)

  /** The index of the last occurrence, or -1. */
  function LastIndexOf(logs: seq<Line>, target: Line): (i: int)
    ensures -1 <= i < |logs|
    ensures i >= 0 ==> logs[i] == target
    ensures forall j :: i < j < |logs| ==> logs[j] != target
  {
    if logs == [] then -1
    else if logs[|logs| - 1] == target then |logs| - 1
    else LastIndexOf(logs[..|logs| - 1], target)
  }

  /** Where printing starts in a window. */
  function Start(c: Cursor, logs: seq<Line>): (n: nat)
    ensures n <= |logs|
  {
    if c.haveLast then LastIndexOf(logs, c.lastPrinted) + 1 else 0
  }

  function Advance(c: Cursor, logs: seq<Line>): Cursor {
    if logs == [] then c else Cursor(logs[|logs| - 1], true)
  }

  // ---------------------------------------------------------------- one poll

  /** The cursor stands behind the first `at` lines of the log. */
  predicate StandsAt(log: seq<Line>, c: Cursor, at: nat) {
    at <= |log| && (c.haveLast <==> at > 0) && (at > 0 ==> c.lastPrinted == log[at - 1])
  }

  function Max(a: nat, b: nat): nat {
    if a < b then b else a
  }

  /** A poll prints exactly the window's lines behind the cursor if and only if the text of the last printed
      line does not occur among them. */
  lemma ExactIff(log: seq<Line>, c: Cursor, at: nat, lo: nat, hi: nat)
    requires StandsAt(log, c, at) && lo <= hi <= |log| && at <= hi
    ensures log[lo..hi][Start(c, log[lo..hi])..] == log[Max(lo, at)..hi]
       <==> (at > 0 ==> log[at - 1] !in log[Max(lo, at)..hi])
  {
    hide LastIndexOf;
    var window, from := log[lo..hi], Max(lo, at);
    var start := Start(c, window);
    assert |window[start..]| == hi - lo - start && |log[from..hi]| == hi - from;
    if at > 0 {
      StartAfterLast(log, c, at, lo, hi);
    }
    if start == from - lo {
      assert window[start..] == log[from..hi];
    }
  }

  /** The position printing starts from is behind the last occurrence of the printed text, so it is the cursor's
      own exactly when no later line of the window repeats it. */
  lemma StartAfterLast(log: seq<Line>, c: Cursor, at: nat, lo: nat, hi: nat)
    requires StandsAt(log, c, at) && lo <= hi <= |log| && 0 < at <= hi
    ensures Start(c, log[lo..hi]) == Max(lo, at) - lo <==> log[at - 1] !in log[Max(lo, at)..hi]
  {
    hide LastIndexOf;
    var window, from := log[lo..hi], Max(lo, at);
    var last := LastIndexOf(window, c.lastPrinted);
    if log[at - 1] in log[from..hi] {
      var i :| from <= i < hi && log[i] == log[at - 1];
      assert window[i - lo] == c.lastPrinted;
      assert last >= i - lo;
    } else {
      forall i | from - lo <= i < |window| ensures window[i] != c.lastPrinted {
        assert window[i] == log[from..hi][i - (from - lo)];
      }
      if lo < at {
        assert window[at - 1 - lo] == c.lastPrinted;
      }
    }
  }

  lemma AdvanceStands(log: seq<Line>, c: Cursor, at: nat, lo: nat, hi: nat)
    requires StandsAt(log, c, at) && lo <= hi <= |log|
    ensures StandsAt(log, Advance(c, log[lo..hi]), if lo < hi then hi else at)
  {
  }

  // ---------------------------------------------------------------- any number of polls

  datatype Window = Window(lo: nat, hi: nat)

  /** Windows of one log: it only grows at the end and is only trimmed at the front. */
  predicate Moving(log: seq<Line>, ws: seq<Window>) {
    && (forall i :: 0 <= i < |ws| ==> ws[i].lo <= ws[i].hi <= |log|)
    && (forall i, j :: 0 <= i < j < |ws| ==> ws[i].lo <= ws[j].lo && ws[i].hi <= ws[j].hi)
  }

  predicate Distinct(log: seq<Line>) {
    forall i, j :: 0 <= i < j < |log| ==> log[i] != log[j]
  }

  /** The lines printed over the first polls, and the cursor after them. */
  function Printed(log: seq<Line>, ws: seq<Window>): (seq<Line>, Cursor)
    requires Moving(log, ws)
  {
    if ws == [] then ([], Cursor("", false))
    else
      var (lines, c) := Printed(log, ws[..|ws| - 1]);
      var w := ws[|ws| - 1];
      var logs := log[w.lo..w.hi];
      (lines + logs[Start(c, logs)..], Advance(c, logs))
  }

  /** The log positions that should be printed: each window's, from where the previous ones ended. */
  function Expected(ws: seq<Window>): (seq<nat>, nat) {
    if ws == [] then ([], 0)
    else
      var (positions, at) := Expected(ws[..|ws| - 1]);
      var w := ws[|ws| - 1];
      (positions + Positions(Max(w.lo, at), w.hi), if w.lo < w.hi then w.hi else at)
  }

  function Positions(from: nat, to: nat): seq<nat>
    decreases if from < to then to - from else 0
  {
    if from >= to then [] else Positions(from, to - 1) + [to - 1]
  }

  predicate PositionsIn(log: seq<Line>, positions: seq<nat>) {
    forall i :: 0 <= i < |positions| ==> positions[i] < |log|
  }

  function Pick(log: seq<Line>, positions: seq<nat>): seq<Line>
    requires PositionsIn(log, positions)
  {
    seq(|positions|, i requires 0 <= i < |positions| => log[positions[i]])
  }

  lemma {:induction false} PositionsAre(from: nat, to: nat)
    ensures forall x :: x in Positions(from, to) <==> from <= x < to
    ensures |Positions(from, to)| == if from < to then to - from else 0
    ensures forall i :: 0 <= i < |Positions(from, to)| ==> Positions(from, to)[i] == from + i
  {
    if from < to {
      PositionsAre(from, to - 1);
    }
  }

  lemma PickRange(log: seq<Line>, from: nat, to: nat)
    requires from <= to <= |log|
    ensures PositionsIn(log, Positions(from, to))
    ensures Pick(log, Positions(from, to)) == log[from..to]
  {
    PositionsAre(from, to);
  }

  /** Some window held position `x`. */
  predicate Seen(ws: seq<Window>, x: nat) {
    exists i :: 0 <= i < |ws| && ws[i].lo <= x < ws[i].hi
  }

  lemma SeenMore(ws: seq<Window>, x: nat)
    requires ws != []
    ensures Seen(ws, x) <==> Seen(ws[..|ws| - 1], x) || ws[|ws| - 1].lo <= x < ws[|ws| - 1].hi
  {
  }

  /** The lines expected so far end where some window ended. */
  lemma {:induction false} ExpectedEnd(log: seq<Line>, ws: seq<Window>)
    requires Moving(log, ws)
    ensures Expected(ws).1 <= |log| && (ws != [] ==> Expected(ws).1 <= ws[|ws| - 1].hi)
    ensures Expected(ws).1 > 0 ==> exists i :: 0 <= i < |ws| && ws[i].lo < ws[i].hi && ws[i].hi == Expected(ws).1
  {
    if ws != [] {
      var init, w := ws[..|ws| - 1], ws[|ws| - 1];
      ExpectedEnd(log, init);
      if w.lo >= w.hi && Expected(init).1 > 0 {
        var i :| 0 <= i < |init| && init[i].lo < init[i].hi && init[i].hi == Expected(init).1;
        assert ws[i] == init[i];
      }
    }
  }

  lemma EndBelow(log: seq<Line>, ws: seq<Window>)
    requires Moving(log, ws) && ws != []
    ensures Expected(ws[..|ws| - 1]).1 <= ws[|ws| - 1].hi
  {
    ExpectedEnd(log, ws[..|ws| - 1]);
  }

  /** Positions below the end that a later window still holds were held by an earlier one. */
  lemma HeldBefore(log: seq<Line>, ws: seq<Window>, x: nat)
    requires Moving(log, ws) && ws != [] && ws[|ws| - 1].lo <= x < Expected(ws[..|ws| - 1]).1
    ensures Seen(ws[..|ws| - 1], x)
  {
    var init := ws[..|ws| - 1];
    ExpectedEnd(log, init);
    var i :| 0 <= i < |init| && init[i].lo < init[i].hi && init[i].hi == Expected(init).1;
    assert init[i].lo <= ws[|ws| - 1].lo;
  }

  /** A position is expected exactly when some window held it, and the positions increase. */
  lemma {:induction false} ExpectedExactly(log: seq<Line>, ws: seq<Window>)
    requires Moving(log, ws)
    ensures forall x :: x in Expected(ws).0 <==> Seen(ws, x)
    ensures forall x :: x in Expected(ws).0 ==> x < Expected(ws).1
    ensures forall i, j :: 0 <= i < j < |Expected(ws).0| ==> Expected(ws).0[i] < Expected(ws).0[j]
  {
    hide Seen;
    if ws == [] {
      assert forall x :: !Seen(ws, x) by { NoneSeen(); }
    } else {
      var init, w := ws[..|ws| - 1], ws[|ws| - 1];
      ExpectedExactly(log, init);
      EndBelow(log, ws);
      var positions, at := Expected(init).0, Expected(init).1;
      PositionsAre(Max(w.lo, at), w.hi);
      Joined(positions, Positions(Max(w.lo, at), w.hi), at);
      forall x: nat ensures x in Expected(ws).0 <==> Seen(ws, x) {
        SeenMore(ws, x);
        if w.lo <= x < at {
          HeldBefore(log, ws, x);
        }
      }
    }
  }

  lemma Joined(a: seq<nat>, b: seq<nat>, m: nat)
    requires forall i, j :: 0 <= i < j < |a| ==> a[i] < a[j]
    requires forall x :: x in a ==> x < m
    requires b != [] ==> b[0] >= m
    requires forall i :: 0 <= i < |b| ==> b[i] == b[0] + i
    ensures forall i, j :: 0 <= i < j < |a + b| ==> (a + b)[i] < (a + b)[j]
  {
    assert forall i :: 0 <= i < |a| ==> a[i] in a;
  }

  lemma NoneSeen()
    ensures forall x :: !Seen([], x)
  {
  }

  /** The poll's new lines do not repeat the last line printed before. */
  predicate NoRepeat(log: seq<Line>, at: nat, w: Window)
    requires w.lo <= w.hi <= |log| && at <= w.hi
  {
    at > 0 ==> log[at - 1] !in log[Max(w.lo, at)..w.hi]
  }

  /** A poll prints the window's lines behind the cursor or fewer, and all of them exactly if none repeats the
      last line printed. */
  lemma PollExpected(log: seq<Line>, c: Cursor, at: nat, w: Window)
    requires StandsAt(log, c, at) && w.lo <= w.hi <= |log| && at <= w.hi
    ensures var logs, from := log[w.lo..w.hi], Max(w.lo, at);
            && |logs[Start(c, logs)..]| <= w.hi - from
            && PositionsIn(log, Positions(from, w.hi)) && |Pick(log, Positions(from, w.hi))| == w.hi - from
            && (logs[Start(c, logs)..] == Pick(log, Positions(from, w.hi)) <==> NoRepeat(log, at, w))
  {
    hide LastIndexOf;
    var window, from := log[w.lo..w.hi], Max(w.lo, at);
    if w.lo < at {
      assert window[at - 1 - w.lo] == c.lastPrinted;
    }
    assert Start(c, window) >= from - w.lo;
    ExactIff(log, c, at, w.lo, w.hi);
    PickRange(log, from, w.hi);
  }

  lemma ConcatIff<T>(a: seq<T>, b: seq<T>, c: seq<T>, d: seq<T>)
    requires |a| <= |c| && |b| <= |d|
    ensures a + b == c + d <==> a == c && b == d
  {
    if a + b == c + d {
      assert |a| == |c|;
      assert (a + b)[..|a|] == a && (c + d)[..|a|] == c && (a + b)[|a|..] == b && (c + d)[|a|..] == d;
    }
  }

  lemma PickConcat(log: seq<Line>, a: seq<nat>, b: seq<nat>)
    requires PositionsIn(log, a) && PositionsIn(log, b)
    ensures PositionsIn(log, a + b) && Pick(log, a + b) == Pick(log, a) + Pick(log, b)
    ensures |Pick(log, a)| == |a| && |Pick(log, b)| == |b|
  {
  }

  /** No poll of the run meets such a repeat. */
  predicate NoRepeats(log: seq<Line>, ws: seq<Window>)
    requires Moving(log, ws)
  {
    ws == []
    || (EndBelow(log, ws);
        NoRepeats(log, ws[..|ws| - 1]) && NoRepeat(log, Expected(ws[..|ws| - 1]).1, ws[|ws| - 1]))
  }

  /** For any log and windows: the polls together print the lines of the expected positions if and only if no
      poll's new lines repeat the last line printed before; otherwise they print fewer. */
  lemma {:induction false} PrintedIff(log: seq<Line>, ws: seq<Window>)
    requires Moving(log, ws)
    ensures PositionsIn(log, Expected(ws).0) && |Printed(log, ws).0| <= |Expected(ws).0|
    ensures Printed(log, ws).0 == Pick(log, Expected(ws).0) <==> NoRepeats(log, ws)
    ensures StandsAt(log, Printed(log, ws).1, Expected(ws).1)
  {
    hide Start, Advance, Positions, Pick, PositionsIn, StandsAt, NoRepeat;
    if ws == [] {
      NothingPrinted(log);
    } else {
      var init, w := ws[..|ws| - 1], ws[|ws| - 1];
      PrintedIff(log, init);
      EndBelow(log, ws);
      var at, c := Expected(init).1, Printed(log, init).1;
      AdvanceStands(log, c, at, w.lo, w.hi);
      PollExpected(log, c, at, w);
      var more, logs := Positions(Max(w.lo, at), w.hi), log[w.lo..w.hi];
      PickConcat(log, Expected(init).0, more);
      ConcatIff(Printed(log, init).0, logs[Start(c, logs)..], Pick(log, Expected(init).0), Pick(log, more));
    }
  }

  /** With a repeat lines are skipped: the second poll takes the new "a" for the one printed before and prints
      nothing, although its window holds two new lines. */
  lemma RepeatSkips()
    ensures var log, ws := ["a", "b", "a"], [Window(0, 1), Window(0, 3)];
            Moving(log, ws) && Printed(log, ws).0 == ["a"] && Expected(ws).0 == [0, 1, 2]
  {
    var log, ws := ["a", "b", "a"], [Window(0, 1), Window(0, 3)];
    assert ws[..1] == [Window(0, 1)] && ws[..1][..0] == [];
    assert log[0..1] == ["a"] && log[0..3] == log;
    assert Printed(log, []) == ([], Cursor("", false)) && Start(Cursor("", false), ["a"]) == 0;
    assert Printed(log, ws[..1]) == ([] + ["a"][0..], Cursor("a", true));
    assert Start(Cursor("a", true), log) == 3;
    assert log[3..] == [];
    PositionsAre(0, 1);
    assert Positions(0, 1) == [0];
    assert Expected(ws[..1]) == ([0], 1);
    PositionsAre(1, 3);
    assert Positions(1, 3) == [1, 2];
  }

  lemma {:induction false} DistinctNoRepeats(log: seq<Line>, ws: seq<Window>)
    requires Moving(log, ws) && Distinct(log)
    ensures NoRepeats(log, ws)
  {
    hide Expected;
    if ws != [] {
      EndBelow(log, ws);
      DistinctNoRepeats(log, ws[..|ws| - 1]);
    }
  }

  /** For a log of distinct lines, whatever the windows: the printed lines are the lines of the expected
      positions, so they come in log order, none twice, and a line is left out only if no poll saw it. */
  lemma PrintedAsExpected(log: seq<Line>, ws: seq<Window>)
    requires Moving(log, ws) && Distinct(log)
    ensures PositionsIn(log, Expected(ws).0) && Printed(log, ws).0 == Pick(log, Expected(ws).0)
  {
    PrintedIff(log, ws);
    DistinctNoRepeats(log, ws);
  }

  lemma NothingPrinted(log: seq<Line>)
    ensures PositionsIn(log, []) && Pick(log, []) == [] && StandsAt(log, Cursor("", false), 0)
  {
  }

  // ---------------------------------------------------------------- the cursor as an object

  class LogStreamCursor {
    var lastPrinted: Line
    var haveLast: bool

    ghost function View(): Cursor
      reads this
    {
      Cursor(lastPrinted, haveLast)
    }

    constructor ()
      ensures View() == Cursor("", false)
    {
      lastPrinted, haveLast := "", false;
    }

    method PrintNew(logs: seq<Line>) returns (out: seq<Line>)
      modifies this
      ensures out == logs[Start(old(View()), logs)..] && View() == Advance(old(View()), logs)
    {
      var start := 0;
      if haveLast {
        var idx := FindLast(logs, lastPrinted);
        if idx >= 0 {
          start := idx + 1;
        }
      }
      out := [];
      for i := start to |logs|
        invariant out == logs[start..i]
      {
        out := out + [logs[i]];
      }
      if |logs| > 0 {
        lastPrinted, haveLast := logs[|logs| - 1], true;
      }
    }
  }

  method FindLast(logs: seq<Line>, target: Line) returns (i: int)
    ensures i == LastIndexOf(logs, target)
  {
    assert logs[..|logs|] == logs;
    i := |logs| - 1;
    while i >= 0
      invariant -1 <= i < |logs| && LastIndexOf(logs[..i + 1], target) == LastIndexOf(logs, target)
    {
      assert logs[..i + 1][..i] == logs[..i];
      if logs[i] == target {
        return;
      }
      i := i - 1;
    }
  }
}
