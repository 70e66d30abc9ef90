/** The line diff: prefix/suffix trim, table, greedy walk (internal/diff/diff.go). */
module LineDiff {
  import opened Subsequences
  import opened Slices

  const MAX_LCS_CELLS := 4 * 1024 * 1024

  type Line = string

  datatype Kind = Same | Removed | Added

  datatype Edit = Edit(kind: Kind, text: Line)

  // ---- What a script means ----

  /** The text a script was made from, the text it makes, and what the two share. */
  datatype Side = OldSide | NewSide | SharedSide

  predicate Shows(kind: Kind, side: Side) {
    match side case OldSide => kind != Added case NewSide => kind != Removed case SharedSide => kind == Same
  }

  function Shown(e: Edit, side: Side): seq<Line> {
    if Shows(e.kind, side) then [e.text] else []
  }

  /** One side of the first n edits. */
  function LinesTo(edits: seq<Edit>, n: nat, side: Side): seq<Line>
    requires n <= |edits|
  {
    if n == 0 then [] else LinesTo(edits, n - 1, side) + Shown(edits[n-1], side)
  }

  function Lines(edits: seq<Edit>, side: Side): seq<Line> {
    LinesTo(edits, |edits|, side)
  }

  /** The script turns exactly the old lines into exactly the new ones. */
  ghost predicate IsScript(edits: seq<Edit>, oldLines: seq<Line>, newLines: seq<Line>) {
    Lines(edits, OldSide) == oldLines && Lines(edits, NewSide) == newLines
  }

  ghost function Kept(edits: seq<Edit>): nat {
    |Lines(edits, SharedSide)|
  }

  /** No alignment of the two texts keeps more lines than this script does. */
  ghost predicate KeepsTheMost(edits: seq<Edit>, oldLines: seq<Line>, newLines: seq<Line>) {
    forall c :: IsCommon(c, oldLines, newLines) ==> |c| <= Kept(edits)
  }

  lemma {:induction false} LinesOfPrefix(a: seq<Edit>, b: seq<Edit>, n: nat, side: Side)
    requires n <= |a|
    ensures LinesTo(a + b, n, side) == LinesTo(a, n, side)
  {
    if n > 0 {
      LinesOfPrefix(a, b, n - 1, side);
    }
  }

  lemma {:induction false} LinesConcatTo(a: seq<Edit>, b: seq<Edit>, n: nat, side: Side)
    requires n <= |b|
    ensures LinesTo(a + b, |a| + n, side) == Lines(a, side) + LinesTo(b, n, side)
  {
    if n == 0 {
      LinesOfPrefix(a, b, |a|, side);
    } else {
      LinesConcatTo(a, b, n - 1, side);
      assert LinesTo(a + b, |a| + n, side) == LinesTo(a + b, |a| + n - 1, side) + Shown(b[n-1], side);
    }
  }

  lemma LinesConcat(a: seq<Edit>, b: seq<Edit>, side: Side)
    ensures Lines(a + b, side) == Lines(a, side) + Lines(b, side)
  {
    LinesConcatTo(a, b, |b|, side);
  }

  /** Scripts of consecutive pieces make the script of the whole, keeping what each of them keeps. */
  lemma ScriptConcat(e: seq<Edit>, a: seq<Line>, b: seq<Line>, f: seq<Edit>, c: seq<Line>, d: seq<Line>)
    requires IsScript(e, a, b) && IsScript(f, c, d)
    ensures IsScript(e + f, a + c, b + d)
    ensures Kept(e + f) == Kept(e) + Kept(f)
  {
    LinesConcat(e, f, OldSide);
    LinesConcat(e, f, NewSide);
    LinesConcat(e, f, SharedSide);
  }

  /** What a script keeps is a common subsequence of its two sides, so no script keeps more than the bound. */
  lemma {:induction false} KeptIsCommon(edits: seq<Edit>, n: nat)
    requires n <= |edits|
    ensures IsCommon(LinesTo(edits, n, SharedSide), LinesTo(edits, n, OldSide), LinesTo(edits, n, NewSide))
  {
    if n > 0 {
      KeptIsCommon(edits, n - 1);
      var e := edits[n-1];
      SubsequenceConcat(LinesTo(edits, n - 1, SharedSide), LinesTo(edits, n - 1, OldSide), Shown(e, SharedSide),
          Shown(e, OldSide));
      SubsequenceConcat(LinesTo(edits, n - 1, SharedSide), LinesTo(edits, n - 1, NewSide), Shown(e, SharedSide),
          Shown(e, NewSide));
    }
  }

  // ---- The trim, as functions ----

  /** How many lines are equal from line k on. */
  function PrefixFrom(a: seq<Line>, b: seq<Line>, k: nat): (n: nat)
    requires k <= |a| && k <= |b|
    ensures k + n <= |a| && k + n <= |b|
    decreases |a| - k
  {
    if k < |a| && k < |b| && a[k] == b[k] then 1 + PrefixFrom(a, b, k + 1) else 0
  }

  /** How many more lines are equal at the end, k of them counted already and the first `prefix` spoken for. */
  function SuffixFrom(a: seq<Line>, b: seq<Line>, prefix: nat, k: nat): (n: nat)
    requires prefix + k <= |a| && prefix + k <= |b|
    ensures prefix + k + n <= |a| && prefix + k + n <= |b|
    decreases |a| - k
  {
    if prefix + k < |a| && prefix + k < |b| && a[|a|-1-k] == b[|b|-1-k] then 1 + SuffixFrom(a, b, prefix, k + 1) else 0
  }

  /** `text` without what it shares with `other` at both ends. */
  function Middle(text: seq<Line>, other: seq<Line>): seq<Line> {
    var prefix := PrefixFrom(text, other, 0);
    var suffix := SuffixFrom(text, other, prefix, 0);
    text[prefix..|text|-suffix]
  }

  predicate TooLarge(oldLines: seq<Line>, newLines: seq<Line>) {
    |Middle(oldLines, newLines)| * |Middle(newLines, oldLines)| > MAX_LCS_CELLS
  }

  lemma {:induction false} PrefixIsShared(a: seq<Line>, b: seq<Line>, k: nat)
    requires k <= |a| && k <= |b|
    ensures PrefixFrom(a, b, k) == PrefixFrom(b, a, k)
    ensures var n := PrefixFrom(a, b, k); a[k..k+n] == b[k..k+n]
    decreases |a| - k
  {
    if k < |a| && k < |b| && a[k] == b[k] {
      PrefixIsShared(a, b, k + 1);
      var n := PrefixFrom(a, b, k + 1);
      assert a[k..k+1+n] == [a[k]] + a[k+1..k+1+n] && b[k..k+1+n] == [b[k]] + b[k+1..k+1+n];
    }
  }

  lemma {:induction false} SuffixIsShared(a: seq<Line>, b: seq<Line>, prefix: nat, k: nat)
    requires prefix + k <= |a| && prefix + k <= |b|
    ensures SuffixFrom(a, b, prefix, k) == SuffixFrom(b, a, prefix, k)
    ensures var n := SuffixFrom(a, b, prefix, k); a[|a|-k-n..|a|-k] == b[|b|-k-n..|b|-k]
    decreases |a| - k
  {
    if prefix + k < |a| && prefix + k < |b| && a[|a|-1-k] == b[|b|-1-k] {
      SuffixIsShared(a, b, prefix, k + 1);
      var n := SuffixFrom(a, b, prefix, k + 1);
      SliceSnoc(a, |a| - k - 1 - n, |a| - k);
      SliceSnoc(b, |b| - k - 1 - n, |b| - k);
    }
  }

  // ---- The code ----

  lemma Append(edits: seq<Edit>, e: Edit, side: Side)
    ensures Lines(edits + [e], side) == Lines(edits, side) + Shown(e, side)
  {
    LinesOfPrefix(edits, [e], |edits|, side);
  }

  method AllOf(kind: Kind, lines: seq<Line>) returns (edits: seq<Edit>)
    ensures IsScript(edits, if kind == Added then [] else lines, if kind == Removed then [] else lines)
    ensures Kept(edits) == if kind == Same then |lines| else 0
    ensures |edits| == |lines| && forall k :: 0 <= k < |edits| ==> edits[k] == Edit(kind, lines[k])
  {
    edits := [];
    for i := 0 to |lines|
      invariant |edits| == i && forall k :: 0 <= k < i ==> edits[k] == Edit(kind, lines[k])
    {
      edits := edits + [Edit(kind, lines[i])];
    }
    OneKind(edits, kind, lines);
  }

  lemma {:induction false} OneKind(edits: seq<Edit>, kind: Kind, lines: seq<Line>)
    requires |edits| == |lines| && forall k :: 0 <= k < |edits| ==> edits[k] == Edit(kind, lines[k])
    ensures IsScript(edits, if kind == Added then [] else lines, if kind == Removed then [] else lines)
    ensures Kept(edits) == if kind == Same then |lines| else 0
  {
    OneKindTo(edits, kind, lines, |lines|, OldSide);
    OneKindTo(edits, kind, lines, |lines|, NewSide);
    OneKindTo(edits, kind, lines, |lines|, SharedSide);
    assert lines[0..|lines|] == lines;
  }

  lemma ShownText(kind: Kind, text: Line, side: Side)
    ensures Shown(Edit(kind, text), side) == if Shows(kind, side) then [text] else []
  {
  }

  lemma {:induction false} OneKindTo(edits: seq<Edit>, kind: Kind, lines: seq<Line>, n: nat, side: Side)
    requires |edits| == |lines| && forall k :: 0 <= k < |edits| ==> edits[k] == Edit(kind, lines[k])
    requires n <= |lines|
    ensures LinesTo(edits, n, side) == if Shows(kind, side) then lines[0..n] else []
  {
    hide Shows, Shown;
    if n > 0 {
      OneKindTo(edits, kind, lines, n - 1, side);
      SliceSnoc(lines, 0, n);
      ShownText(kind, lines[n-1], side);
    }
  }

  /** Cell (i, j) of the flat table. */
  function At(i: nat, j: nat, cols: nat): (k: nat) { i * cols + j }

  lemma AtInRange(i: nat, j: nat, rows: nat, cols: nat)
    requires i < rows && j < cols
    ensures At(i, j, cols) < rows * cols
  {
    assert (i + 1) * cols <= rows * cols;
  }

  lemma AtInjective(i: nat, j: nat, r: nat, c: nat, cols: nat)
    requires j < cols && c < cols && (i != r || j != c)
    ensures At(i, j, cols) != At(r, c, cols)
  {
    if i < r {
      assert (i + 1) * cols <= r * cols;
    } else if r < i {
      assert (r + 1) * cols <= i * cols;
    }
  }

  /** Every cell holds the length of a longest common subsequence of what is left from there. */
  ghost predicate CellIs(table: seq<nat>, a: seq<Line>, b: seq<Line>, i: nat, j: nat)
    requires i <= |a| && j <= |b|
  {
    At(i, j, |b| + 1) < |table| && table[At(i, j, |b| + 1)] == LcsFrom(a, b, i, j)
  }

  method LcsEdits(oldMid: seq<Line>, newMid: seq<Line>) returns (edits: seq<Edit>)
    ensures IsScript(edits, oldMid, newMid)
    ensures Kept(edits) == LcsLength(oldMid, newMid)
  {
    var table := FillTable(oldMid, newMid);
    var i, j;
    edits, i, j := Walk(table, oldMid, newMid);
    var restOld := AllOf(Removed, oldMid[i..]);
    var restNew := AllOf(Added, newMid[j..]);
    WalkDone(edits, oldMid, newMid, i, j, restOld, restNew);
    edits := edits + restOld + restNew;
  }

  lemma WalkDone(edits: seq<Edit>, a: seq<Line>, b: seq<Line>, i: nat, j: nat, restA: seq<Edit>, restB: seq<Edit>)
    requires i <= |a| && j <= |b| && IsScript(edits, a[..i], b[..j])
    requires IsScript(restA, a[i..], []) && IsScript(restB, [], b[j..]) && Kept(restA) == Kept(restB) == 0
    ensures IsScript(edits + restA + restB, a, b) && Kept(edits + restA + restB) == Kept(edits)
  {
    hide Kept, Lines;
    ScriptConcat(edits, a[..i], b[..j], restA, a[i..], []);
    assert a[..i] + a[i..] == a && b[..j] + [] == b[..j];
    ScriptConcat(edits + restA, a, b[..j], restB, [], b[j..]);
    assert b[..j] + b[j..] == b && a + [] == a;
  }

  /** The greedy walk through the table, until one of the texts is used up. */
  method Walk(table: array<nat>, oldMid: seq<Line>, newMid: seq<Line>) returns (edits: seq<Edit>, i: nat, j: nat)
    requires forall r, c :: 0 <= r <= |oldMid| && 0 <= c <= |newMid| ==> CellIs(table[..], oldMid, newMid, r, c)
    ensures i <= |oldMid| && j <= |newMid| && (i == |oldMid| || j == |newMid|)
    ensures IsScript(edits, oldMid[..i], newMid[..j])
    ensures Kept(edits) == LcsLength(oldMid, newMid)
  {
    var n, m, cols := |oldMid|, |newMid|, |newMid| + 1;
    edits, i, j := [], 0, 0;
    while i < n && j < m
      invariant i <= n && j <= m
      invariant IsScript(edits, oldMid[..i], newMid[..j])
      invariant Kept(edits) + LcsFrom(oldMid, newMid, i, j) == LcsLength(oldMid, newMid)
      decreases n - i + m - j
    {
      assert CellIs(table[..], oldMid, newMid, i + 1, j) && CellIs(table[..], oldMid, newMid, i, j + 1);
      assert oldMid[..i+1] == oldMid[..i] + [oldMid[i]] && newMid[..j+1] == newMid[..j] + [newMid[j]];
      var step := if oldMid[i] == newMid[j] then Edit(Same, oldMid[i])
                  else if table[At(i + 1, j, cols)] >= table[At(i, j + 1, cols)] then Edit(Removed, oldMid[i])
                  else Edit(Added, newMid[j]);
      Append(edits, step, OldSide);
      Append(edits, step, NewSide);
      Append(edits, step, SharedSide);
      edits := edits + [step];
      i, j := if step.kind == Added then i else i + 1, if step.kind == Removed then j else j + 1;
    }
  }

  method FillTable(oldMid: seq<Line>, newMid: seq<Line>) returns (table: array<nat>)
    ensures fresh(table) && table.Length == (|oldMid| + 1) * (|newMid| + 1)
    ensures forall r, c :: 0 <= r <= |oldMid| && 0 <= c <= |newMid| ==> CellIs(table[..], oldMid, newMid, r, c)
  {
    var n, m, cols := |oldMid|, |newMid|, |newMid| + 1;
    table := new nat[(n + 1) * cols](_ => 0);
    forall r, c | 0 <= r <= n && 0 <= c <= m && (r == n || c == m)
      ensures CellIs(table[..], oldMid, newMid, r, c)
    {
      AtInRange(r, c, n + 1, cols);
    }
    var i := n;
    while i > 0
      invariant 0 <= i <= n
      invariant forall r, c :: 0 <= r <= n && 0 <= c <= m && (r >= i || c == m) ==>
        CellIs(table[..], oldMid, newMid, r, c)
    {
      i := i - 1;
      var j := m;
      while j > 0
        invariant 0 <= j <= m
        invariant forall r, c :: 0 <= r <= n && 0 <= c <= m && (r > i || c == m || (r == i && c >= j))
                                 ==> CellIs(table[..], oldMid, newMid, r, c)
      {
        j := j - 1;
        FillCell(table, oldMid, newMid, i, j);
      }
    }
  }

  method FillCell(table: array<nat>, oldMid: seq<Line>, newMid: seq<Line>, i: nat, j: nat)
    requires i < |oldMid| && j < |newMid| && table.Length == (|oldMid| + 1) * (|newMid| + 1)
    requires CellIs(table[..], oldMid, newMid, i + 1, j + 1)
    requires CellIs(table[..], oldMid, newMid, i + 1, j)
    requires CellIs(table[..], oldMid, newMid, i, j + 1)
    modifies table
    ensures CellIs(table[..], oldMid, newMid, i, j)
    ensures forall r, c | 0 <= r <= |oldMid| && 0 <= c <= |newMid| && !(r == i && c == j) ::
              CellIs(old(table[..]), oldMid, newMid, r, c) ==> CellIs(table[..], oldMid, newMid, r, c)
  {
    var cols := |newMid| + 1;
    ghost var before := table[..];
    AtInRange(i, j, |oldMid| + 1, cols);
    if oldMid[i] == newMid[j] {
      table[At(i, j, cols)] := table[At(i + 1, j + 1, cols)] + 1;
    } else {
      var below, right := table[At(i + 1, j, cols)], table[At(i, j + 1, cols)];
      table[At(i, j, cols)] := if below >= right then below else right;
    }
    assert CellIs(table[..], oldMid, newMid, i, j);
    forall r, c | 0 <= r <= |oldMid| && 0 <= c <= |newMid| && !(r == i && c == j)
        && CellIs(before, oldMid, newMid, r, c)
      ensures CellIs(table[..], oldMid, newMid, r, c)
    {
      AtInjective(r, c, i, j, cols);
    }
  }

  lemma EmptyScript()
    ensures IsScript([], [], []) && Kept([]) == 0
  {
  }

  method DiffMiddle(oldMid: seq<Line>, newMid: seq<Line>) returns (edits: seq<Edit>)
    ensures IsScript(edits, oldMid, newMid)
    ensures Kept(edits) == if |oldMid| * |newMid| > MAX_LCS_CELLS then 0 else LcsLength(oldMid, newMid)
  {
    hide LinesTo, IsScript, Kept;
    var cells := |oldMid| * |newMid|;
    if oldMid == [] && newMid == [] {
      EmptyScript();
      edits := [];
    } else if oldMid == [] {
      edits := AllOf(Added, newMid);
    } else if newMid == [] {
      edits := AllOf(Removed, oldMid);
    } else if cells > MAX_LCS_CELLS {
      edits := AllOf(Removed, oldMid);
      var more := AllOf(Added, newMid);
      ScriptConcat(edits, oldMid, [], more, [], newMid);
      edits := edits + more;
      assert oldMid + [] == oldMid && [] + newMid == newMid;
    } else {
      edits := LcsEdits(oldMid, newMid);
    }
  }

  method Trim(oldLines: seq<Line>, newLines: seq<Line>) returns (prefix: nat, suffix: nat)
    ensures prefix == PrefixFrom(oldLines, newLines, 0)
    ensures suffix == SuffixFrom(oldLines, newLines, prefix, 0)
  {
    prefix := 0;
    while prefix < |oldLines| && prefix < |newLines| && oldLines[prefix] == newLines[prefix]
      invariant prefix <= |oldLines| && prefix <= |newLines|
      invariant prefix + PrefixFrom(oldLines, newLines, prefix) == PrefixFrom(oldLines, newLines, 0)
    {
      prefix := prefix + 1;
    }
    suffix := 0;
    while suffix < |oldLines| - prefix && suffix < |newLines| - prefix &&
          oldLines[|oldLines|-1-suffix] == newLines[|newLines|-1-suffix]
      invariant prefix + suffix <= |oldLines| && prefix + suffix <= |newLines|
      invariant suffix + SuffixFrom(oldLines, newLines, prefix, suffix) == SuffixFrom(oldLines, newLines, prefix, 0)
    {
      suffix := suffix + 1;
    }
  }

  lemma TrimLeavesMiddles(a: seq<Line>, b: seq<Line>, prefix: nat, suffix: nat)
    requires prefix == PrefixFrom(a, b, 0) && suffix == SuffixFrom(a, b, prefix, 0)
    ensures Middle(a, b) == a[prefix..|a|-suffix] && Middle(b, a) == b[prefix..|b|-suffix]
    ensures a[0..prefix] == b[0..prefix] && a[|a|-suffix..|a|] == b[|b|-suffix..|b|]
  {
    hide PrefixFrom, SuffixFrom;
    assert prefix == PrefixFrom(b, a, 0) && a[0..prefix] == b[0..prefix] by {
      hide Middle;
      PrefixIsShared(a, b, 0);
    }
    assert suffix == SuffixFrom(b, a, prefix, 0) && a[|a|-suffix..|a|] == b[|b|-suffix..|b|] by {
      hide Middle;
      SuffixIsShared(a, b, prefix, 0);
    }
  }

  /** What is left between the shared ends shares neither its first line nor its last. */
  lemma MiddlesAreTight(a: seq<Line>, b: seq<Line>) returns (opening: seq<Line>, closing: seq<Line>)
    ensures var m, n := Middle(a, b), Middle(b, a);
            && a == opening + m + closing && b == opening + n + closing
            && (m != [] && n != [] ==> m[0] != n[0] && m[|m|-1] != n[|n|-1])
  {
    hide PrefixFrom, SuffixFrom, Middle;
    var prefix := PrefixFrom(a, b, 0);
    var suffix := SuffixFrom(a, b, prefix, 0);
    TrimLeavesMiddles(a, b, prefix, suffix);
    Glue(a, a, prefix, suffix);
    Glue(b, a, prefix, suffix);
    PrefixIsLongest(a, b, 0);
    SuffixIsLongest(a, b, prefix, 0);
    opening, closing := a[..prefix], a[|a|-suffix..];
  }

  lemma {:induction false} PrefixIsLongest(a: seq<Line>, b: seq<Line>, k: nat)
    requires k <= |a| && k <= |b|
    ensures var p := k + PrefixFrom(a, b, k); p == |a| || p == |b| || a[p] != b[p]
    decreases |a| - k
  {
    if k < |a| && k < |b| && a[k] == b[k] { PrefixIsLongest(a, b, k + 1); }
  }

  lemma {:induction false} SuffixIsLongest(a: seq<Line>, b: seq<Line>, prefix: nat, k: nat)
    requires prefix + k <= |a| && prefix + k <= |b|
    ensures var s := k + SuffixFrom(a, b, prefix, k);
            prefix + s == |a| || prefix + s == |b| || a[|a|-1-s] != b[|b|-1-s]
    decreases |a| - k
  {
    if prefix + k < |a| && prefix + k < |b| && a[|a|-1-k] == b[|b|-1-k] { SuffixIsLongest(a, b, prefix, k + 1); }
  }

  lemma Glue(b: seq<Line>, a: seq<Line>, prefix: nat, suffix: nat)
    requires prefix + suffix <= |a| && prefix + suffix <= |b|
    requires a[0..prefix] == b[0..prefix] && a[|a|-suffix..|a|] == b[|b|-suffix..|b|]
    ensures b == a[..prefix] + b[prefix..|b|-suffix] + a[|a|-suffix..]
  {
    assert a[..prefix] == a[0..prefix] == b[0..prefix] == b[..prefix];
    assert a[|a|-suffix..] == a[|a|-suffix..|a|] == b[|b|-suffix..|b|] == b[|b|-suffix..];
  }

  /** The edit script is exact on every input, and keeps the most lines unless the trimmed middles are over
      the cell limit and still share a line. */
  method DiffLines(oldLines: seq<Line>, newLines: seq<Line>) returns (edits: seq<Edit>)
    ensures IsScript(edits, oldLines, newLines)
    ensures KeepsTheMost(edits, oldLines, newLines) <==>
            |Middle(oldLines, newLines)| * |Middle(newLines, oldLines)| <= 4_194_304
                || forall x :: x in Middle(oldLines, newLines) ==> x !in Middle(newLines, oldLines)
  {
    var prefix, suffix := Trim(oldLines, newLines);
    TrimLeavesMiddles(oldLines, newLines, prefix, suffix);
    Glue(oldLines, oldLines, prefix, suffix);
    Glue(newLines, oldLines, prefix, suffix);
    var oldMid := oldLines[prefix..|oldLines|-suffix];
    var newMid := newLines[prefix..|newLines|-suffix];
    var opening := AllOf(Same, oldLines[..prefix]);
    var changed := DiffMiddle(oldMid, newMid);
    var closing := AllOf(Same, oldLines[|oldLines|-suffix..]);
    edits := opening + changed + closing;
    ghost var p, q := oldLines[..prefix], oldLines[|oldLines|-suffix..];
    ScriptConcat(opening, p, p, changed, oldMid, newMid);
    ScriptConcat(opening + changed, p + oldMid, p + newMid, closing, q, q);
    TrimmedIsBest(edits, p, oldMid, newMid, q);
  }

  /** A script keeping the shared ends keeps the most lines exactly when its middle is as long as possible. */
  lemma TrimmedIsBest(edits: seq<Edit>, p: seq<Line>, a: seq<Line>, b: seq<Line>, s: seq<Line>)
    requires Kept(edits) == |p| + |s| + if |a| * |b| > MAX_LCS_CELLS then 0 else LcsLength(a, b)
    ensures KeepsTheMost(edits, p + a + s, p + b + s) <==>
            |a| * |b| <= MAX_LCS_CELLS || forall x :: x in a ==> x !in b
  {
    if |a| * |b| <= MAX_LCS_CELLS || forall x :: x in a ==> x !in b {
      if |a| * |b| > MAX_LCS_CELLS { DisjointLcs(a, b, 0, 0); }
      forall c | IsCommon(c, p + a + s, p + b + s) ensures |c| <= Kept(edits) {
        TrimmedUpperBound(c, p, a, b, s);
      }
    } else {
      var x :| x in a && x in b;
      ElementIsSubsequence(x, a);
      ElementIsSubsequence(x, b);
      SubsequenceItself(p);
      SubsequenceItself(s);
      SubsequenceConcat(p, p, [x], a);
      SubsequenceConcat(p, p, [x], b);
      SubsequenceConcat(p + [x], p + a, s, s);
      SubsequenceConcat(p + [x], p + b, s, s);
      assert IsCommon(p + [x] + s, p + a + s, p + b + s);
    }
  }

  function OneText(): seq<Line> { ["a", "b"] + seq(2100, _ => "x") }

  function OtherText(): seq<Line> { ["b", "a"] + seq(2100, _ => "y") }

  /** The limit is felt: the middles of two texts of 2102 lines share a line and exceed it. */
  lemma OverLimitLosesASharedLine()
    ensures |OneText()| == |OtherText()| == 2102 && TooLarge(OneText(), OtherText())
    ensures exists x :: x in Middle(OneText(), OtherText()) && x in Middle(OtherText(), OneText())
  {
    var oldLines, newLines := OneText(), OtherText();
    assert oldLines[2101] == "x" && newLines[2101] == "y";
    assert Middle(oldLines, newLines) == oldLines && Middle(newLines, oldLines) == newLines;
    assert oldLines[0] == "a" && newLines[1] == "a";
    assert "a" in Middle(oldLines, newLines) && "a" in Middle(newLines, oldLines);
  }

  /** The script for them keeps fewer lines than it could. */
  method LoseASharedLine() returns (edits: seq<Edit>)
    ensures IsScript(edits, OneText(), OtherText()) && !KeepsTheMost(edits, OneText(), OtherText())
  {
    hide OneText, OtherText, KeepsTheMost, IsScript;
    OverLimitLosesASharedLine();
    edits := DiffLines(OneText(), OtherText());
  }
}
