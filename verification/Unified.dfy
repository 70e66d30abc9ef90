/** The whole diff: splitting, aligning, rendering, and what the reader of its text can rely on
    (internal/diff/diff.go). */
module Unified {
  import opened Wrappers
  import opened LineDiff
  import opened Texts
  import opened Patches
  import opened Hunks

  // ---- What a hunk tells its reader ----

  /** A header selects from each text exactly the lines the body attributes to it. */
  lemma HeaderSelects(edits: seq<Edit>, context: nat, h: Hunk, s: Span)
    requires Fits(edits, context, h, s)
    ensures 0 <= h.oldStart - 1 && h.oldStart - 1 + h.oldCount <= |Lines(edits, OldSide)|
    ensures 0 <= h.newStart - 1 && h.newStart - 1 + h.newCount <= |Lines(edits, NewSide)|
    ensures Lines(edits, OldSide)[h.oldStart-1..h.oldStart-1+h.oldCount] == Lines(h.body, OldSide)
    ensures Lines(edits, NewSide)[h.newStart-1..h.newStart-1+h.newCount] == Lines(h.body, NewSide)
  {
    hide Lines, LinesTo, WellCut;
    FitsInside(edits, context, h, s);
    SliceOfLines(edits, s.start, s.end, OldSide);
    SliceOfLines(edits, s.start, s.end, NewSide);
  }

  lemma SliceOfLines(edits: seq<Edit>, lo: nat, hi: nat, side: Side)
    requires lo <= hi <= |edits|
    ensures |LinesTo(edits, hi, side)| ==
      |LinesTo(edits, lo, side)| + |Lines(edits[lo..hi], side)| <= |Lines(edits, side)|
    ensures Lines(edits, side)[|LinesTo(edits, lo, side)|..|LinesTo(edits, hi, side)|] == Lines(edits[lo..hi], side)
  {
    LinesBetween(edits, lo, hi, side);
    LinesBetween(edits, hi, |edits|, side);
  }

  /** The part of a rendering that says where its hunks are. */
  ghost predicate Ordered(edits: seq<Edit>, spans: seq<Span>) {
    && CoversOnce(edits, spans, |edits|)
    && forall k :: 0 <= k < |spans| ==>
         spans[k].start <= spans[k].first < spans[k].end <= |edits| && AllSame(edits, spans[k].start, spans[k].first)
  }

  ghost function EndOf(spans: seq<Span>, k: nat): nat
    requires k <= |spans|
  {
    if k == 0 then 0 else spans[k-1].end
  }

  ghost function NextChange(edits: seq<Edit>, spans: seq<Span>, k: nat): nat
    requires k <= |spans|
  {
    if k == |spans| then |edits| else spans[k].first
  }

  /** Between the end of one hunk and the first change of the next nothing changes. */
  lemma SameBetween(edits: seq<Edit>, spans: seq<Span>, k: nat)
    requires Ordered(edits, spans) && k <= |spans|
    ensures EndOf(spans, k) <= NextChange(edits, spans, k) <= |edits|
    ensures AllSame(edits, EndOf(spans, k), NextChange(edits, spans, k))
  {
  }

  /** From the end of hunk k - 1 on, the patch produces the new text. */
  ghost predicate PatchedFrom(edits: seq<Edit>, hunks: seq<Hunk>, spans: seq<Span>, k: nat)
    requires k <= |spans| == |hunks|
  {
    var e := EndOf(spans, k);
    e <= |edits| && Patch(Lines(edits, OldSide), hunks, k, |LinesTo(edits, e, OldSide)|) == Lines(edits[e..], NewSide)
  }

  lemma {:induction false} PatchFrom(edits: seq<Edit>, hunks: seq<Hunk>, spans: seq<Span>, k: nat)
    requires Ordered(edits, spans) && k <= |spans| == |hunks|
    requires forall i :: 0 <= i < |spans| ==> Located(edits, hunks[i], spans[i])
    ensures PatchedFrom(edits, hunks, spans, k)
    decreases |spans| - k
  {
    hide Located, PatchedFrom;
    if k < |spans| {
      PatchFrom(edits, hunks, spans, k + 1);
      SameBetween(edits, spans, k);
      PatchStep(edits, hunks, spans, k);
    } else {
      PatchEnd(edits, hunks, spans);
    }
  }

  lemma PatchEnd(edits: seq<Edit>, hunks: seq<Hunk>, spans: seq<Span>)
    requires Ordered(edits, spans) && |spans| == |hunks|
    ensures PatchedFrom(edits, hunks, spans, |spans|)
  {
    SameBetween(edits, spans, |spans|);
    var e := EndOf(spans, |spans|);
    SliceOfLines(edits, e, |edits|, OldSide);
    SameLinesBetween(edits, e, |edits|);
    assert edits[e..] == edits[e..|edits|];
  }

  lemma PatchStep(edits: seq<Edit>, hunks: seq<Hunk>, spans: seq<Span>, k: nat)
    requires k < |spans| == |hunks| && PatchedFrom(edits, hunks, spans, k + 1)
    requires var s := spans[k];
             s.start <= s.first < s.end <= |edits| && AllSame(edits, s.start, s.first) && Located(edits, hunks[k], s)
    requires EndOf(spans, k) <= spans[k].first && AllSame(edits, EndOf(spans, k), spans[k].first)
    ensures PatchedFrom(edits, hunks, spans, k)
  {
    hide Piece, After, Located, Lines, LinesTo, AllSame;
    var e, f := EndOf(spans, k), spans[k].end;
    HunkPiece(edits, hunks[k], spans[k], e);
    NewSideSplit(edits, e, f, |edits|);
    assert edits[e..] == edits[e..|edits|] && edits[f..] == edits[f..|edits|];
  }

  /** One hunk, applied from where the previous one ended. */
  lemma HunkPiece(edits: seq<Edit>, h: Hunk, s: Span, e: nat)
    requires s.start <= s.first < s.end <= |edits| && e <= s.first
    requires AllSame(edits, s.start, s.first) && AllSame(edits, e, s.first) && Located(edits, h, s)
    ensures Piece(Lines(edits, OldSide), h, |LinesTo(edits, e, OldSide)|) == Lines(edits[e..s.end], NewSide)
    ensures After(h) == |LinesTo(edits, s.end, OldSide)|
  {
    hide Piece, After, Located, Lines, LinesTo;
    if s.start >= e {
      HunkAfterGap(edits, h, s, e);
    } else {
      HunkOverlapping(edits, h, s, e);
    }
  }

  /** A hunk past the end of the previous one: the lines between are copied, then its body is. */
  lemma HunkAfterGap(edits: seq<Edit>, h: Hunk, s: Span, e: nat)
    requires e <= s.start <= s.end <= |edits| && Located(edits, h, s) && AllSame(edits, e, s.start)
    ensures Piece(Lines(edits, OldSide), h, |LinesTo(edits, e, OldSide)|) == Lines(edits[e..s.end], NewSide)
    ensures After(h) == |LinesTo(edits, s.end, OldSide)|
  {
    hide Lines, LinesTo, AllSame;
    SliceOfLines(edits, s.start, s.end, OldSide);
    SliceOfLines(edits, e, s.start, OldSide);
    SameLinesBetween(edits, e, s.start);
    NewSideSplit(edits, e, s.start, s.end);
  }

  lemma NewSideSplit(edits: seq<Edit>, lo: nat, mid: nat, hi: nat)
    requires lo <= mid <= hi <= |edits|
    ensures Lines(edits[lo..hi], NewSide) == Lines(edits[lo..mid], NewSide) + Lines(edits[mid..hi], NewSide)
  {
    hide Lines;
    LinesConcat(edits[lo..mid], edits[mid..hi], NewSide);
    assert edits[lo..hi] == edits[lo..mid] + edits[mid..hi];
  }

  /** A hunk that opens with lines the previous one already showed: those are skipped. */
  lemma HunkOverlapping(edits: seq<Edit>, h: Hunk, s: Span, e: nat)
    requires s.start < e <= s.end <= |edits| && Located(edits, h, s) && AllSame(edits, s.start, e)
    ensures Piece(Lines(edits, OldSide), h, |LinesTo(edits, e, OldSide)|) == Lines(edits[e..s.end], NewSide)
    ensures After(h) == |LinesTo(edits, s.end, OldSide)|
  {
    hide Lines, LinesTo, AllSame;
    SliceOfLines(edits, s.start, s.end, OldSide);
    SliceOfLines(edits, s.start, e, OldSide);
    SameLinesBetween(edits, s.start, e);
    assert h.body[e-s.start..] == edits[e..s.end];
  }

  /** The hunks alone turn the old text into the new one. */
  lemma HunksArePatch(edits: seq<Edit>, context: nat, hunks: seq<Hunk>, spans: seq<Span>)
    requires Renders(edits, context, hunks, spans, |edits|)
    ensures Patch(Lines(edits, OldSide), hunks, 0, 0) == Lines(edits, NewSide)
  {
    hide Located, NoLongRun, LongRunAfter;
    forall k | 0 <= k < |spans| ensures Located(edits, hunks[k], spans[k]) {
      assert Fits(edits, context, hunks[k], spans[k]);
    }
    PatchFrom(edits, hunks, spans, 0);
    assert edits[0..] == edits;
  }

  // ---- Unified ----

  lemma {:induction false} PrefixOfItself(a: seq<Line>, k: nat)
    requires k <= |a|
    ensures PrefixFrom(a, a, k) == |a| - k
    decreases |a| - k
  {
    if k < |a| { PrefixOfItself(a, k + 1); }
  }

  lemma {:induction false} SidesCount(edits: seq<Edit>, n: nat)
    requires n <= |edits|
    ensures |LinesTo(edits, n, SharedSide)| <= |LinesTo(edits, n, OldSide)|
    ensures |LinesTo(edits, n, SharedSide)| <= |LinesTo(edits, n, NewSide)|
    ensures |LinesTo(edits, n, SharedSide)| == |LinesTo(edits, n, OldSide)| == |LinesTo(edits, n, NewSide)| ==>
      AllSame(edits, 0, n)
  {
    if n > 0 { SidesCount(edits, n - 1); }
  }

  /** A script that keeps the most lines of a text against itself changes nothing. */
  lemma NoChangeAgainstItself(edits: seq<Edit>, lines: seq<Line>)
    requires IsScript(edits, lines, lines)
    requires !TooLarge(lines, lines) ==> KeepsTheMost(edits, lines, lines)
    ensures AllSame(edits, 0, |edits|)
  {
    PrefixOfItself(lines, 0);
    assert Middle(lines, lines) == [];
    Subsequences.SubsequenceItself(lines);
    assert Subsequences.IsCommon(lines, lines, lines);
    SidesCount(edits, |edits|);
  }

  lemma {:induction false} LinesOfScript(edits: seq<Edit>, n: nat)
    requires n <= |edits|
    ensures forall k :: 0 <= k < n ==>
      edits[k].text in LinesTo(edits, n, OldSide) || edits[k].text in LinesTo(edits, n, NewSide)
  {
    if n > 0 { LinesOfScript(edits, n - 1); }
  }

  /** The diff, read and applied to the old text, gives the new one. */
  lemma TextIsPatch(edits: seq<Edit>, context: nat, hunks: seq<Hunk>, spans: seq<Span>, out: string)
    requires Renders(edits, context, hunks, spans, |edits|) && ReadPatch(out) == Some(hunks)
    ensures Apply(Lines(edits, OldSide), out) == Some(Lines(edits, NewSide))
  {
    hide Lines, Patch, Fits, ReadPatch;
    HunksArePatch(edits, context, hunks, spans);
    forall h | h in hunks ensures Matches(Lines(edits, OldSide), h) {
      var k :| 0 <= k < |hunks| && hunks[k] == h;
      HeaderSelects(edits, context, h, spans[k]);
      CountsAreTrue(edits, context, h, spans[k]);
    }
  }

  lemma CountsAreTrue(edits: seq<Edit>, context: nat, h: Hunk, s: Span)
    requires Fits(edits, context, h, s)
    ensures h.oldStart >= 1 && h.newCount == |Lines(h.body, NewSide)|
  {
  }

  lemma NoNewlines(edits: seq<Edit>, before: string, after: string)
    requires IsScript(edits, SplitLines(before), SplitLines(after))
    ensures forall e <- edits :: '\n' !in e.text
  {
    hide SplitLines, LinesTo;
    SplitLinesTerminated(before);
    SplitLinesTerminated(after);
    LinesOfScript(edits, |edits|);
  }

  /** The diff of two texts: the best script that is in reach, cut into hunks, and a text that, read and applied to the
      old lines, gives the new ones. */
  method UnifiedDiff(before: string, after: string, context: int)
    returns (out: string, ghost edits: seq<Edit>, ghost hunks: seq<Hunk>, ghost spans: seq<Span>)
    ensures IsScript(edits, SplitLines(before), SplitLines(after))
    ensures out == Text(hunks) && Renders(edits, if context < 0 then 0 else context, hunks, spans, |edits|)
    ensures ReadPatch(out) == Some(hunks) && Apply(SplitLines(before), out) == Some(SplitLines(after))
    ensures out == "" <==> WithFinalNewline(before) == WithFinalNewline(after)
  {
    SameLines(before, after);
    var lines := if context < 0 then 0 else context;
    var oldLines, newLines := SplitLines(before), SplitLines(after);
    if before == after {
      var same := AllOf(Same, oldLines);
      out, edits, hunks, spans := "", same, [], [];
      TextReads([]);
      TextIsPatch(edits, lines, hunks, spans, out);
      return;
    }
    var script := DiffLines(oldLines, newLines);
    out, hunks, spans := Render(script, lines);
    edits := script;
    NoNewlines(edits, before, after);
    TextIsPatch(edits, lines, hunks, spans, out);
    EmptyIffSame(edits, lines, hunks, spans);
    if oldLines == newLines { NoChangeAgainstItself(edits, oldLines); }
  }

  lemma EmptyIffSame(edits: seq<Edit>, context: nat, hunks: seq<Hunk>, spans: seq<Span>)
    requires Renders(edits, context, hunks, spans, |edits|)
    ensures Text(hunks) == "" ==> Lines(edits, OldSide) == Lines(edits, NewSide)
    ensures AllSame(edits, 0, |edits|) ==> Text(hunks) == ""
  {
    if hunks != [] {
      assert Fits(edits, context, hunks[0], spans[0]);
    } else {
      assert AllSame(edits, 0, |edits|);
      SameLinesBetween(edits, 0, |edits|);
      assert edits[0..|edits|] == edits;
    }
  }
}
