/** The line diff behind `orlojctl diff`: a longest-common-subsequence table, a walk through it,
    and the unified rendering of the result. */
module LineDiff {
  import opened Strings

  type Line = string

  /** One output line: kept (' '), removed ('-') or added ('+'). */
  datatype Op = Keep(line: Line) | Remove(line: Line) | Add(line: Line)

  /** The lines marked ' ' or '-'. */
  function OldSide(ops: seq<Op>): seq<Line> {
    if ops == [] then []
    else
      var init, last := ops[..|ops| - 1], ops[|ops| - 1];
      if last.Add? then OldSide(init) else OldSide(init) + [last.line]
  }

  /** The lines marked ' ' or '+'. */
  function NewSide(ops: seq<Op>): seq<Line> {
    if ops == [] then []
    else
      var init, last := ops[..|ops| - 1], ops[|ops| - 1];
      if last.Remove? then NewSide(init) else NewSide(init) + [last.line]
  }

  /** The lines marked ' '. */
  function Kept(ops: seq<Op>): seq<Line> {
    if ops == [] then []
    else
      var init, last := ops[..|ops| - 1], ops[|ops| - 1];
      if last.Keep? then Kept(init) + [last.line] else Kept(init)
  }

  lemma NoScript()
    ensures OldSide([]) == [] && NewSide([]) == [] && Kept([]) == []
  {
  }

  /** A script with one more operation. */
  lemma ScriptMore(ops: seq<Op>, op: Op)
    ensures OldSide(ops + [op]) == if op.Add? then OldSide(ops) else OldSide(ops) + [op.line]
    ensures NewSide(ops + [op]) == if op.Remove? then NewSide(ops) else NewSide(ops) + [op.line]
    ensures Kept(ops + [op]) == if op.Keep? then Kept(ops) + [op.line] else Kept(ops)
  {
    assert (ops + [op])[..|ops|] == ops;
  }

  /** `ops` is an edit script from `a` to `b`. */
  predicate Edits(ops: seq<Op>, a: seq<Line>, b: seq<Line>) {
    OldSide(ops) == a && NewSide(ops) == b
  }

  /** `c` can be had from `s[i..]` by deleting lines. */
  predicate Within(c: seq<Line>, s: seq<Line>, i: nat)
    requires i <= |s|
    decreases |s| - i
  {
    c == [] || (i < |s| && (Within(c, s, i + 1) || (c[0] == s[i] && Within(c[1..], s, i + 1))))
  }

  predicate Subsequence(c: seq<Line>, s: seq<Line>) {
    Within(c, s, 0)
  }

  ghost predicate LongestCommon(c: seq<Line>, a: seq<Line>, b: seq<Line>) {
    && Subsequence(c, a) && Subsequence(c, b)
    && forall d :: Subsequence(d, a) && Subsequence(d, b) ==> |d| <= |c|
  }

  // ---------------------------------------------------------------- the table

  /** What the table holds at `i`, `j`: a recurrence over the lines from there on. */
  function Table(a: seq<Line>, b: seq<Line>, i: nat, j: nat): nat
    requires i <= |a| && j <= |b|
    decreases |a| - i + |b| - j
  {
    if i == |a| || j == |b| then 0
    else if a[i] == b[j] then Table(a, b, i + 1, j + 1) + 1
    else if Table(a, b, i + 1, j) >= Table(a, b, i, j + 1) then Table(a, b, i + 1, j)
    else Table(a, b, i, j + 1)
  }

  /** The recurrence, cell by cell. */
  lemma Cell(a: seq<Line>, b: seq<Line>, i: nat, j: nat)
    requires i <= |a| && j <= |b|
    ensures i == |a| || j == |b| ==> Table(a, b, i, j) == 0
    ensures i < |a| && j < |b| ==>
              Table(a, b, i, j) == if a[i] == b[j] then Table(a, b, i + 1, j + 1) + 1
                                   else if Table(a, b, i + 1, j) >= Table(a, b, i, j + 1) then Table(a, b, i + 1, j)
                                   else Table(a, b, i, j + 1)
  {
  }

  /** Dropping one line changes an entry by at most one. */
  lemma {:induction false} TableSmooth(a: seq<Line>, b: seq<Line>, i: nat, j: nat)
    requires i <= |a| && j <= |b|
    ensures i < |a| ==> Table(a, b, i + 1, j) <= Table(a, b, i, j) <= Table(a, b, i + 1, j) + 1
    ensures j < |b| ==> Table(a, b, i, j + 1) <= Table(a, b, i, j) <= Table(a, b, i, j + 1) + 1
    decreases |a| - i + |b| - j
  {
    if i < |a| { TableSmooth(a, b, i + 1, j); }
    if j < |b| { TableSmooth(a, b, i, j + 1); }
  }

  lemma {:induction false} WithinTail(c: seq<Line>, s: seq<Line>, i: nat)
    requires i <= |s| && c != [] && Within(c, s, i)
    ensures i < |s| && Within(c[1..], s, i + 1)
    decreases |s| - i
  {
    if Within(c, s, i + 1) {
      WithinTail(c, s, i + 1);
    }
  }

  /** No common subsequence of the lines from `i` and `j` on is longer than the table entry. */
  lemma {:induction false} TableBounds(a: seq<Line>, b: seq<Line>, i: nat, j: nat, c: seq<Line>)
    requires i <= |a| && j <= |b| && Within(c, a, i) && Within(c, b, j)
    ensures |c| <= Table(a, b, i, j)
    decreases |a| - i + |b| - j
  {
    if c != [] {
      TableSmooth(a, b, i, j);
      if Within(c, a, i + 1) {
        TableBounds(a, b, i + 1, j, c);
      } else if Within(c, b, j + 1) {
        TableBounds(a, b, i, j + 1, c);
      } else {
        TableBounds(a, b, i + 1, j + 1, c[1..]);
      }
    }
  }

  lemma {:induction false} WithinGrows(c: seq<Line>, s: seq<Line>, i: nat, x: Line)
    requires i <= |s| && Within(c, s, i)
    ensures Within(c, s + [x], i) && Within(c + [x], s + [x], i)
    decreases |s| - i
  {
    if i < |s| && c == [] {
      WithinGrows(c, s, i + 1, x);
    } else if c != [] && Within(c, s, i + 1) {
      WithinGrows(c, s, i + 1, x);
    } else if c != [] {
      WithinGrows(c[1..], s, i + 1, x);
      assert (c + [x])[1..] == c[1..] + [x];
    } else {
      assert (c + [x])[1..] == [];
    }
  }

  /** In every edit script the kept lines are a common subsequence, and the script's length is
      settled by how many there are. */
  lemma {:induction false} ScriptFacts(ops: seq<Op>)
    ensures Subsequence(Kept(ops), OldSide(ops)) && Subsequence(Kept(ops), NewSide(ops))
    ensures |ops| == |OldSide(ops)| + |NewSide(ops)| - |Kept(ops)|
  {
    if ops != [] {
      var init, x := ops[..|ops| - 1], ops[|ops| - 1].line;
      ScriptFacts(init);
      WithinGrows(Kept(init), OldSide(init), 0, x);
      WithinGrows(Kept(init), NewSide(init), 0, x);
    }
  }

  /** A script that keeps as many lines as the table promises is optimal: its kept lines are a longest
      common subsequence and no edit script between the same texts is shorter. */
  lemma Optimal(ops: seq<Op>, a: seq<Line>, b: seq<Line>)
    requires Edits(ops, a, b) && |Kept(ops)| == Table(a, b, 0, 0)
    ensures LongestCommon(Kept(ops), a, b)
    ensures forall other :: Edits(other, a, b) ==> |ops| <= |other|
  {
    ScriptFacts(ops);
    forall d | Subsequence(d, a) && Subsequence(d, b) ensures |d| <= |Kept(ops)| {
      TableBounds(a, b, 0, 0, d);
    }
    forall other | Edits(other, a, b) ensures |ops| <= |other| {
      ScriptFacts(other);
      TableBounds(a, b, 0, 0, Kept(other));
    }
  }

  // ---------------------------------------------------------------- which of the shortest scripts

  /** Equal lines are kept at once. */
  ghost predicate KeepsEqual(ops: seq<Op>, a: seq<Line>, b: seq<Line>) {
    forall k :: 0 <= k < |ops| ==>
      var i, j := |OldSide(ops[..k])|, |NewSide(ops[..k])|;
      i < |a| && j < |b| && a[i] == b[j] ==> ops[k] == Keep(a[i])
  }

  /** A line is added before another is removed only where every script that goes on with the removal is
      longer. */
  ghost predicate RemovesFirst(ops: seq<Op>, a: seq<Line>, b: seq<Line>) {
    forall k, other :: 0 <= k < |ops| && ops[k].Add? && Edits(other, a, b) ==>
      var i := |OldSide(ops[..k])|;
      i < |a| && ops[..k] + [Remove(a[i])] <= other ==> |ops| < |other|
  }

  /** The walk's rule at every step, over the table. */
  ghost predicate Follows(ops: seq<Op>, a: seq<Line>, b: seq<Line>) {
    forall k :: 0 <= k < |ops| ==> FollowsAt(ops[k], a, b, |OldSide(ops[..k])|, |NewSide(ops[..k])|)
  }

  ghost predicate FollowsAt(op: Op, a: seq<Line>, b: seq<Line>, i: nat, j: nat) {
    i < |a| && j < |b| ==>
      op == if a[i] == b[j] then Keep(a[i]) else if Table(a, b, i + 1, j) >= Table(a, b, i, j + 1) then Remove(a[i]) else Add(b[j])
  }

  lemma FollowsMore(ops: seq<Op>, op: Op, a: seq<Line>, b: seq<Line>)
    requires Follows(ops, a, b) && FollowsAt(op, a, b, |OldSide(ops)|, |NewSide(ops)|)
    ensures Follows(ops + [op], a, b)
  {
    hide FollowsAt, OldSide, NewSide;
    var more := ops + [op];
    forall k | 0 <= k < |more| ensures FollowsAt(more[k], a, b, |OldSide(more[..k])|, |NewSide(more[..k])|) {
      if k < |ops| {
        assert more[..k] == ops[..k];
      } else {
        assert more[..k] == ops;
      }
    }
  }

  lemma {:induction false} SidesConcat(x: seq<Op>, y: seq<Op>)
    ensures OldSide(x + y) == OldSide(x) + OldSide(y) && NewSide(x + y) == NewSide(x) + NewSide(y) && Kept(x + y) == Kept(x) + Kept(y)
  {
    hide OldSide, NewSide, Kept;
    if y == [] {
      NoScript();
      assert x + y == x;
    } else {
      var init, last := y[..|y| - 1], y[|y| - 1];
      SidesConcat(x, init);
      ScriptMore(x + init, last);
      ScriptMore(init, last);
      assert x + y == (x + init) + [last] && y == init + [last];
    }
  }

  /** The operation at `k` takes the next line of its side or sides. */
  lemma OpAt(ops: seq<Op>, a: seq<Line>, b: seq<Line>, k: nat)
    requires Edits(ops, a, b) && k < |ops|
    ensures var i, j := |OldSide(ops[..k])|, |NewSide(ops[..k])|;
            && i <= |a| && j <= |b| && OldSide(ops[..k]) == a[..i] && NewSide(ops[..k]) == b[..j]
            && (!ops[k].Add? ==> i < |a| && a[i] == ops[k].line) && (!ops[k].Remove? ==> j < |b| && b[j] == ops[k].line)
  {
    hide OldSide, NewSide, Kept;
    var pre, rest := ops[..k], ops[k + 1..];
    assert ops == (pre + [ops[k]]) + rest;
    SidesConcat(pre + [ops[k]], rest);
    ScriptMore(pre, ops[k]);
  }

  /** Along a script that follows the table, what is kept and what the table promises add up. */
  lemma {:induction false} PrefixKept(ops: seq<Op>, a: seq<Line>, b: seq<Line>, k: nat)
    requires Edits(ops, a, b) && Follows(ops, a, b) && k <= |ops|
    ensures |OldSide(ops[..k])| <= |a| && |NewSide(ops[..k])| <= |b|
    ensures |Kept(ops[..k])| + Table(a, b, |OldSide(ops[..k])|, |NewSide(ops[..k])|) == Table(a, b, 0, 0)
  {
    hide OldSide, NewSide, Kept, Table;
    if k == 0 {
      NoScript();
      assert ops[..0] == [];
    } else {
      PrefixKept(ops, a, b, k - 1);
      OpAt(ops, a, b, k - 1);
      var pre, i, j := ops[..k - 1], |OldSide(ops[..k - 1])|, |NewSide(ops[..k - 1])|;
      ScriptMore(pre, ops[k - 1]);
      assert ops[..k] == pre + [ops[k - 1]];
      assert FollowsAt(ops[k - 1], a, b, i, j);
      hide FollowsAt, Edits, Follows;
      OneStep(ops[k - 1], a, b, i, j);
    }
  }

  lemma OneStep(op: Op, a: seq<Line>, b: seq<Line>, i: nat, j: nat)
    requires i <= |a| && j <= |b| && FollowsAt(op, a, b, i, j) && (!op.Add? ==> i < |a|) && (!op.Remove? ==> j < |b|)
    ensures Table(a, b, i, j)
         == Table(a, b, if op.Add? then i else i + 1, if op.Remove? then j else j + 1) + if op.Keep? then 1 else 0
  {
    hide Table;
    Cell(a, b, i, j);
    if i == |a| {
      Cell(a, b, i, j + 1);
    } else if j == |b| {
      Cell(a, b, i + 1, j);
    }
  }

  lemma {:induction false} WithinSlice(c: seq<Line>, s: seq<Line>, i: nat, n: nat)
    requires n + i <= |s| && Within(c, s[n..], i)
    ensures Within(c, s, n + i)
    decreases |s| - i
  {
    if c != [] {
      if Within(c, s[n..], i + 1) {
        WithinSlice(c, s, i + 1, n);
      } else {
        WithinSlice(c[1..], s, i + 1, n);
      }
    }
  }

  /** A script that goes on from `i` and `j` keeps no more than the table has there. */
  lemma RestBounded(rest: seq<Op>, a: seq<Line>, b: seq<Line>, i: nat, j: nat)
    requires i <= |a| && j <= |b| && Edits(rest, a[i..], b[j..])
    ensures |Kept(rest)| <= Table(a, b, i, j)
  {
    hide OldSide, NewSide, Kept, Table;
    ScriptFacts(rest);
    WithinSlice(Kept(rest), a, 0, i);
    WithinSlice(Kept(rest), b, 0, j);
    TableBounds(a, b, i, j, Kept(rest));
  }

  lemma LaterIsLonger(ops: seq<Op>, a: seq<Line>, b: seq<Line>, k: nat, other: seq<Op>)
    requires Edits(ops, a, b) && Follows(ops, a, b) && |Kept(ops)| == Table(a, b, 0, 0) && k < |ops| && ops[k].Add? && Edits(other, a, b)
    requires var i := |OldSide(ops[..k])|; i < |a| && ops[..k] + [Remove(a[i])] <= other
    ensures |ops| < |other|
  {
    hide OldSide, NewSide, Kept, Table;
    var i, j := |OldSide(ops[..k])|, |NewSide(ops[..k])|;
    OpAt(ops, a, b, k);
    PrefixKept(ops, a, b, k);
    assert FollowsAt(ops[k], a, b, i, j);
    Cell(a, b, i, j);
    var pre := ops[..k] + [Remove(a[i])];
    var rest := other[|pre|..];
    assert other == pre + rest;
    ScriptMore(ops[..k], Remove(a[i]));
    SidesConcat(pre, rest);
    SplitSides(OldSide(pre), OldSide(rest), a, i + 1);
    SplitSides(NewSide(pre), NewSide(rest), b, j);
    RestBounded(rest, a, b, i + 1, j);
    ScriptFacts(ops);
    ScriptFacts(other);
  }

  lemma SplitSides(front: seq<Line>, back: seq<Line>, all: seq<Line>, n: nat)
    requires front + back == all && n == |front|
    ensures back == all[n..]
  {
  }

  lemma FollowsMeans(ops: seq<Op>, a: seq<Line>, b: seq<Line>)
    requires Edits(ops, a, b) && Follows(ops, a, b) && |Kept(ops)| == Table(a, b, 0, 0)
    ensures KeepsEqual(ops, a, b) && RemovesFirst(ops, a, b)
  {
    hide OldSide, NewSide, Kept, Table, Edits;
    forall k | 0 <= k < |ops| ensures FollowsAt(ops[k], a, b, |OldSide(ops[..k])|, |NewSide(ops[..k])|) {
    }
    forall k, other | 0 <= k < |ops| && ops[k].Add? && Edits(other, a, b)
      ensures var i := |OldSide(ops[..k])|; i < |a| && ops[..k] + [Remove(a[i])] <= other ==> |ops| < |other|
    {
      var i := |OldSide(ops[..k])|;
      if i < |a| && ops[..k] + [Remove(a[i])] <= other {
        LaterIsLonger(ops, a, b, k, other);
      }
    }
  }

  lemma {:induction false} SameScript(ops: seq<Op>, other: seq<Op>, a: seq<Line>, b: seq<Line>, k: nat)
    requires Edits(ops, a, b) && KeepsEqual(ops, a, b) && RemovesFirst(ops, a, b)
    requires Edits(other, a, b) && KeepsEqual(other, a, b) && RemovesFirst(other, a, b)
    requires |ops| == |other| && k <= |ops|
    ensures ops[..k] == other[..k]
  {
    hide OldSide, NewSide, Edits, KeepsEqual, RemovesFirst;
    if k > 0 {
      SameScript(ops, other, a, b, k - 1);
      SameOp(ops, other, a, b, k - 1);
      assert ops[..k] == ops[..k - 1] + [ops[k - 1]] && other[..k] == other[..k - 1] + [other[k - 1]];
    }
  }

  lemma SameOp(ops: seq<Op>, other: seq<Op>, a: seq<Line>, b: seq<Line>, k: nat)
    requires Edits(ops, a, b) && KeepsEqual(ops, a, b) && RemovesFirst(ops, a, b)
    requires Edits(other, a, b) && KeepsEqual(other, a, b) && RemovesFirst(other, a, b)
    requires |ops| == |other| && k < |ops| && ops[..k] == other[..k]
    ensures ops[k] == other[k]
  {
    hide OldSide, NewSide, Edits;
    OpAt(ops, a, b, k);
    OpAt(other, a, b, k);
    if ops[k].Add? && other[k].Remove? {
      NotBoth(ops, other, a, b, k);
    } else if ops[k].Remove? && other[k].Add? {
      NotBoth(other, ops, a, b, k);
    }
  }

  lemma NotBoth(ops: seq<Op>, other: seq<Op>, a: seq<Line>, b: seq<Line>, k: nat)
    requires RemovesFirst(ops, a, b) && Edits(other, a, b) && Edits(ops, a, b)
    requires k < |ops| && k < |other| && ops[..k] == other[..k] && ops[k].Add? && other[k].Remove?
    ensures |ops| < |other|
  {
    hide OldSide, NewSide, Edits;
    OpAt(other, a, b, k);
    assert other[..k + 1] == ops[..k] + [Remove(a[|OldSide(ops[..k])|])];
    assert other[..k + 1] <= other;
  }

  /** Among the shortest scripts there is one that keeps equal lines at once and removes first. */
  lemma OneScript(ops: seq<Op>, other: seq<Op>, a: seq<Line>, b: seq<Line>)
    requires Edits(ops, a, b) && KeepsEqual(ops, a, b) && RemovesFirst(ops, a, b)
    requires Edits(other, a, b) && KeepsEqual(other, a, b) && RemovesFirst(other, a, b)
    requires |ops| == |other|
    ensures ops == other
  {
    hide Edits, KeepsEqual, RemovesFirst;
    SameScript(ops, other, a, b, |ops|);
    assert ops[..|ops|] == ops && other[..|other|] == other;
  }

  // ---------------------------------------------------------------- the two loops

  method FillRow(a: seq<Line>, b: seq<Line>, dp: array2<nat>, i: nat)
    requires i < |a| && dp.Length0 == |a| + 1 && dp.Length1 == |b| + 1
    requires forall x, y :: i < x <= |a| && 0 <= y <= |b| ==> dp[x, y] == Table(a, b, x, y)
    requires dp[i, |b|] == 0
    modifies dp
    ensures forall x, y :: i <= x <= |a| && 0 <= y <= |b| ==> dp[x, y] == Table(a, b, x, y)
    ensures forall x, y :: 0 <= x < i && 0 <= y <= |b| ==> dp[x, y] == old(dp[x, y])
  {
    hide Table;
    Cell(a, b, i, |b|);
    for j := |b| downto 0
      invariant forall x, y :: i < x <= |a| && 0 <= y <= |b| ==> dp[x, y] == Table(a, b, x, y)
      invariant forall y :: j <= y <= |b| ==> dp[i, y] == Table(a, b, i, y)
      invariant forall x, y :: 0 <= x < i && 0 <= y <= |b| ==> dp[x, y] == old(dp[x, y])
    {
      Cell(a, b, i, j);
      if a[i] == b[j] {
        dp[i, j] := dp[i + 1, j + 1] + 1;
      } else if dp[i + 1, j] >= dp[i, j + 1] {
        dp[i, j] := dp[i + 1, j];
      } else {
        dp[i, j] := dp[i, j + 1];
      }
    }
  }

  method FillTable(a: seq<Line>, b: seq<Line>) returns (dp: array2<nat>)
    ensures fresh(dp) && dp.Length0 == |a| + 1 && dp.Length1 == |b| + 1
    ensures forall i, j :: 0 <= i <= |a| && 0 <= j <= |b| ==> dp[i, j] == Table(a, b, i, j)
  {
    hide Table;
    dp := new nat[|a| + 1, |b| + 1]((i, j) => 0);
    forall y | 0 <= y <= |b| ensures Table(a, b, |a|, y) == 0 {
      Cell(a, b, |a|, y);
    }
    for i := |a| downto 0
      invariant forall x, y :: i <= x <= |a| && 0 <= y <= |b| ==> dp[x, y] == Table(a, b, x, y)
      invariant forall x :: 0 <= x < i ==> dp[x, |b|] == 0
    {
      FillRow(a, b, dp, i);
    }
  }

  /** The common part of the walk; it stops when one side is used up. */
  method WalkTable(a: seq<Line>, b: seq<Line>, dp: array2<nat>) returns (ops: seq<Op>, i: nat, j: nat)
    requires dp.Length0 == |a| + 1 && dp.Length1 == |b| + 1
    requires forall x, y :: 0 <= x <= |a| && 0 <= y <= |b| ==> dp[x, y] == Table(a, b, x, y)
    ensures i <= |a| && j <= |b| && (i == |a| || j == |b|)
    ensures Edits(ops, a[..i], b[..j]) && |Kept(ops)| == Table(a, b, 0, 0) && Follows(ops, a, b)
  {
    hide Walked, Table, OldSide, NewSide, Kept, Follows;
    i, j, ops := 0, 0, [];
    NothingWalked(a, b);
    while i < |a| && j < |b|
      invariant i <= |a| && j <= |b| && Walked(a, b, ops, i, j)
    {
      if a[i] == b[j] {
        WalkOn(a, b, ops, i, j, Keep(a[i]));
        ops := ops + [Keep(a[i])];
        i, j := i + 1, j + 1;
      } else if dp[i + 1, j] >= dp[i, j + 1] {
        WalkOn(a, b, ops, i, j, Remove(a[i]));
        ops := ops + [Remove(a[i])];
        i := i + 1;
      } else {
        WalkOn(a, b, ops, i, j, Add(b[j]));
        ops := ops + [Add(b[j])];
        j := j + 1;
      }
    }
    WalkedEnd(a, b, ops, i, j);
  }

  /** Where the walk stands. */
  ghost predicate Walked(a: seq<Line>, b: seq<Line>, ops: seq<Op>, i: nat, j: nat) {
    && i <= |a| && j <= |b| && Edits(ops, a[..i], b[..j]) && Follows(ops, a, b)
    && |Kept(ops)| + Table(a, b, i, j) == Table(a, b, 0, 0)
  }

  lemma NothingWalked(a: seq<Line>, b: seq<Line>)
    ensures Walked(a, b, [], 0, 0)
  {
    hide Table;
  }

  /** A step that follows the table keeps the sum of what is kept and what the table promises. */
  lemma WalkOn(a: seq<Line>, b: seq<Line>, ops: seq<Op>, i: nat, j: nat, op: Op)
    requires Walked(a, b, ops, i, j) && i < |a| && j < |b| && FollowsAt(op, a, b, i, j)
    ensures Walked(a, b, ops + [op], if op.Add? then i else i + 1, if op.Remove? then j else j + 1)
  {
    hide Table, OldSide, NewSide, Kept, Follows;
    Cell(a, b, i, j);
    ScriptMore(ops, op);
    FollowsMore(ops, op, a, b);
    assert a[..i + 1] == a[..i] + [a[i]] && b[..j + 1] == b[..j] + [b[j]];
  }

  lemma WalkedEnd(a: seq<Line>, b: seq<Line>, ops: seq<Op>, i: nat, j: nat)
    requires Walked(a, b, ops, i, j) && (i == |a| || j == |b|)
    ensures Edits(ops, a[..i], b[..j]) && |Kept(ops)| == Table(a, b, 0, 0) && Follows(ops, a, b)
  {
    hide Table, OldSide, NewSide, Kept, Follows;
    Cell(a, b, i, j);
  }

  /** The two loops after the walk: the rest of `a` is removed, the rest of `b` added. */
  method FinishWalk(a: seq<Line>, b: seq<Line>, walked: seq<Op>, i0: nat, j0: nat) returns (ops: seq<Op>)
    requires i0 <= |a| && j0 <= |b| && (i0 == |a| || j0 == |b|) && Edits(walked, a[..i0], b[..j0]) && Follows(walked, a, b)
    ensures Edits(ops, a, b) && Kept(ops) == Kept(walked) && Follows(ops, a, b)
  {
    hide Table, OldSide, NewSide, Kept, Follows;
    ops := walked;
    var i, j := i0, j0;
    while i < |a|
      invariant i <= |a| && (i == |a| || j == |b|) && Follows(ops, a, b)
      invariant OldSide(ops) == a[..i] && NewSide(ops) == b[..j] && Kept(ops) == Kept(walked)
    {
      ScriptMore(ops, Remove(a[i]));
      FollowsMore(ops, Remove(a[i]), a, b);
      ops := ops + [Remove(a[i])];
      i := i + 1;
    }
    assert a[..i] == a;
    while j < |b|
      invariant j <= |b| && Follows(ops, a, b)
      invariant OldSide(ops) == a && NewSide(ops) == b[..j] && Kept(ops) == Kept(walked)
    {
      ScriptMore(ops, Add(b[j]));
      FollowsMore(ops, Add(b[j]), a, b);
      ops := ops + [Add(b[j])];
      j := j + 1;
    }
    assert b[..j] == b;
  }

  method LineDiffOps(a: seq<Line>, b: seq<Line>) returns (ops: seq<Op>)
    ensures Edits(ops, a, b)
    ensures LongestCommon(Kept(ops), a, b)
    ensures forall other :: Edits(other, a, b) ==> |ops| <= |other|
    ensures KeepsEqual(ops, a, b) && RemovesFirst(ops, a, b)
  {
    hide OldSide, NewSide, Kept, Table, Follows, KeepsEqual, RemovesFirst;
    var dp := FillTable(a, b);
    var walked, i, j := WalkTable(a, b, dp);
    ops := FinishWalk(a, b, walked, i, j);
    Optimal(ops, a, b);
    FollowsMeans(ops, a, b);
  }

  // ---------------------------------------------------------------- text

  const NEWLINE := '\n'

  function TrimNewline(text: string): string {
    if text != "" && text[|text| - 1] == NEWLINE then text[..|text| - 1] else text
  }

  function SplitDiffLines(text: string): (lines: seq<Line>)
    ensures forall i :: 0 <= i < |lines| ==> NEWLINE !in lines[i]
  {
    var trimmed := TrimNewline(text);
    if trimmed == "" then [] else Split(trimmed, NEWLINE)
  }

  /** The lines of a text: none if it is empty or one newline; else what stands between its newlines, where a
      final newline ends the last line. */
  lemma LinesAre(s: string)
    ensures SplitDiffLines("") == [] && SplitDiffLines("\n") == []
    ensures s != "" ==> SplitDiffLines(s + "\n") == Split(s, '\n')
    ensures s != "" && s[|s| - 1] != '\n' ==> SplitDiffLines(s) == Split(s, '\n')
  {
    hide Split;
    assert (s + "\n")[..|s|] == s;
  }

  /** Two texts have the same lines exactly when they agree up to one final newline. */
  lemma SameLines(s: string, t: string)
    ensures SplitDiffLines(s) == SplitDiffLines(t) <==> TrimNewline(s) == TrimNewline(t)
  {
    JoinSplit(TrimNewline(s), NEWLINE);
    JoinSplit(TrimNewline(t), NEWLINE);
  }

  function Mark(op: Op): char {
    match op case Keep(_) => ' ' case Remove(_) => '-' case Add(_) => '+'
  }

  function Body(ops: seq<Op>): string {
    if ops == [] then ""
    else Body(ops[..|ops| - 1]) + [Mark(ops[|ops| - 1])] + ops[|ops| - 1].line + [NEWLINE]
  }

  function Header(oldLabel: string, newLabel: string, oldCount: nat, newCount: nat): string {
    "--- " + oldLabel + "\n+++ " + newLabel + "\n@@ -1," + Decimal(oldCount) + " +1," + Decimal(newCount) + " @@\n"
  }

  /** The header is three lines: the two labels, and how many lines each text has. */
  lemma HeaderReads(oldLabel: string, newLabel: string, oldCount: nat, newCount: nat, rest: string)
    requires NEWLINE !in oldLabel && NEWLINE !in newLabel
    ensures Split(Header(oldLabel, newLabel, oldCount, newCount) + rest, NEWLINE)
         == ["--- " + oldLabel, "+++ " + newLabel, "@@ -1," + Decimal(oldCount) + " +1," + Decimal(newCount) + " @@"] + Split(rest, NEWLINE)
  {
    hide Split, Decimal, AllDigits;
    var x, y, m, n := "--- " + oldLabel, "+++ " + newLabel, Decimal(oldCount), Decimal(newCount);
    var z := "@@ -1," + m + " +1," + n + " @@";
    NoNewline(m);
    NoNewline(n);
    assert NEWLINE !in z;
    assert Header(oldLabel, newLabel, oldCount, newCount) + rest == x + [NEWLINE] + (y + [NEWLINE] + (z + [NEWLINE] + rest));
    SplitPrefix(x, y + [NEWLINE] + (z + [NEWLINE] + rest), NEWLINE);
    SplitPrefix(y, z + [NEWLINE] + rest, NEWLINE);
    SplitPrefix(z, rest, NEWLINE);
  }

  lemma NoNewline(digits: string)
    requires AllDigits(digits)
    ensures NEWLINE !in digits
  {
  }

  /** Reads one printed line back. */
  function ReadOp(line: string): Op {
    if line == "" then Keep("")
    else if line[0] == '-' then Remove(line[1..])
    else if line[0] == '+' then Add(line[1..])
    else Keep(line[1..])
  }

  function ReadOps(lines: seq<string>): seq<Op> {
    if lines == [] then [] else ReadOps(lines[..|lines| - 1]) + [ReadOp(lines[|lines| - 1])]
  }

  /** Reads a printed body back; what follows its last newline is not a line. */
  function ReadBody(body: string): seq<Op> {
    var lines := Split(body, NEWLINE);
    ReadOps(lines[..|lines| - 1])
  }

  function Printed(ops: seq<Op>): seq<string> {
    if ops == [] then []
    else Printed(ops[..|ops| - 1]) + [[Mark(ops[|ops| - 1])] + ops[|ops| - 1].line]
  }

  lemma {:induction false} BodyLines(ops: seq<Op>, tail: string)
    requires forall i :: 0 <= i < |ops| ==> NEWLINE !in ops[i].line
    ensures Split(Body(ops) + tail, NEWLINE) == Printed(ops) + Split(tail, NEWLINE)
  {
    if ops == [] {
      assert Body(ops) + tail == tail;
    } else {
      var init, last := ops[..|ops| - 1], ops[|ops| - 1];
      var printed := [Mark(last)] + last.line;
      assert Body(ops) + tail == Body(init) + (printed + [NEWLINE] + tail);
      BodyLines(init, printed + [NEWLINE] + tail);
      SplitPrefix(printed, tail, NEWLINE);
    }
  }

  lemma {:induction false} ReadPrinted(ops: seq<Op>)
    ensures ReadOps(Printed(ops)) == ops
  {
    if ops != [] {
      ReadPrinted(ops[..|ops| - 1]);
      var last := ops[|ops| - 1];
      assert ([Mark(last)] + last.line)[1..] == last.line;
    }
  }

  /** The printed body can be read back without loss. */
  lemma ReadBodyBack(ops: seq<Op>)
    requires forall i :: 0 <= i < |ops| ==> NEWLINE !in ops[i].line
    ensures ReadBody(Body(ops)) == ops
  {
    BodyLines(ops, "");
    assert Body(ops) + "" == Body(ops);
    ReadPrinted(ops);
  }

  lemma {:induction false} LinesOfOps(ops: seq<Op>)
    ensures forall i :: 0 <= i < |ops| ==> ops[i].line in OldSide(ops) || ops[i].line in NewSide(ops)
  {
    if ops != [] {
      LinesOfOps(ops[..|ops| - 1]);
    }
  }

  method RenderBody(ops: seq<Op>) returns (body: string)
    ensures body == Body(ops)
  {
    body := "";
    for i := 0 to |ops|
      invariant body == Body(ops[..i])
    {
      assert ops[..i + 1][..i] == ops[..i];
      body := body + [Mark(ops[i])] + ops[i].line + [NEWLINE];
    }
    assert ops[..|ops|] == ops;
  }

  /** The unified diff: after the header, the text alone determines a shortest edit script between the
      two texts' lines. */
  method RenderUnifiedDiff(oldText: string, newText: string, oldLabel: string, newLabel: string) returns (out: string)
    ensures var a, b := SplitDiffLines(oldText), SplitDiffLines(newText);
            var header := Header(oldLabel, newLabel, |a|, |b|);
            && header <= out
            && Edits(ReadBody(out[|header|..]), a, b)
            && forall other :: Edits(other, a, b) ==> |ReadBody(out[|header|..])| <= |other|
    ensures NEWLINE !in oldLabel && NEWLINE !in newLabel ==>
              var lines := Split(out, NEWLINE);
              && |lines| > 3 && lines[0] == "--- " + oldLabel && lines[1] == "+++ " + newLabel
              && lines[2] == "@@ -1," + Decimal(|SplitDiffLines(oldText)|) + " +1," + Decimal(|SplitDiffLines(newText)|) + " @@"
  {
    hide Header, Split, Decimal, SplitDiffLines, KeepsEqual, RemovesFirst, LongestCommon;
    var oldLines, newLines := SplitDiffLines(oldText), SplitDiffLines(newText);
    var ops := LineDiffOps(oldLines, newLines);
    var header := Header(oldLabel, newLabel, |oldLines|, |newLines|);
    var body := RenderBody(ops);
    assert ReadBody(body) == ops by {
      LinesOfOps(ops);
      ReadBodyBack(ops);
    }
    out := header + body;
    assert out[|header|..] == body;
    if NEWLINE !in oldLabel && NEWLINE !in newLabel {
      HeaderReads(oldLabel, newLabel, |oldLines|, |newLines|, body);
    }
  }
}
