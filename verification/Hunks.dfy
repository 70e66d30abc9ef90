/** Rendering an edit script as located hunks (internal/diff/diff.go). */
module Hunks {
  import opened Decimals
  import opened Wrappers
  import opened LineDiff
  import opened Slices
  import opened Texts
  import opened Patches

  /** Where a hunk sits in the script: edits[start..end), its first and last changed edits included. */
  datatype Span = Span(start: nat, first: nat, last: nat, end: nat)

  // ---- Text ----

  function EditText(e: Edit): string {
    (match e.kind case Same => " " case Removed => "-" case Added => "+") + e.text + "\n"
  }

  function BodyText(body: seq<Edit>): string {
    if body == [] then "" else BodyText(body[..|body|-1]) + EditText(body[|body|-1])
  }

  function SignedDecimal(n: int): string {
    if n < 0 then "-" + Decimal(-n) else Decimal(n)
  }

  function Header(h: Hunk): string {
    "@@ -" + SignedDecimal(h.oldStart) + "," + Decimal(h.oldCount) + " +" +
    SignedDecimal(h.newStart) + "," + Decimal(h.newCount) + " @@"
  }

  function HunkText(h: Hunk): string {
    Header(h) + "\n" + BodyText(h.body)
  }

  function Text(hunks: seq<Hunk>): string {
    if hunks == [] then "" else Text(hunks[..|hunks|-1]) + HunkText(hunks[|hunks|-1])
  }

  // ---- The text is read back ----

  /** Hunks whose lines hold no newline and whose headers hold no sign. */
  ghost predicate Printable(h: Hunk) {
    h.oldStart >= 0 && h.newStart >= 0 && forall e <- h.body :: '\n' !in e.text
  }

  lemma {:induction false} DecimalIsDigits(n: nat)
    ensures '\n' !in Decimal(n) && '@' !in Decimal(n)
  {
    if n >= 10 { DecimalIsDigits(n / 10); }
  }

  lemma HeaderReads(h: Hunk)
    requires Printable(h)
    ensures ReadHeader(Header(h)) == Some(h.(body := [])) && '\n' !in Header(h)
  {
    hide Decimal, ReadNumbers;
    var words := ["@@ -", ",", " +", ","];
    DecimalIsDigits(h.oldStart);
    DecimalIsDigits(h.oldCount);
    DecimalIsDigits(h.newStart);
    DecimalIsDigits(h.newCount);
    NoMoreNumbers(" @@");
    var end, d := " @@", "," + Decimal(h.newCount) + " @@";
    var c := " +" + Decimal(h.newStart) + d;
    var b := "," + Decimal(h.oldCount) + c;
    assert [","] + [] == [","] && [" +"] + [","] == [" +", ","];
    assert [","] + [" +", ","] == [",", " +", ","] && ["@@ -"] + [",", " +", ","] == words;
    var none := Fields([], end);
    var one := none.(numbers := [h.newCount] + none.numbers);
    var two := one.(numbers := [h.newStart] + one.numbers);
    var three := two.(numbers := [h.oldCount] + two.numbers);
    NumberReads(",", [], h.newCount, end, none);
    NumberReads(" +", [","], h.newStart, d, one);
    NumberReads(",", [" +", ","], h.oldCount, c, two);
    NumberReads("@@ -", [",", " +", ","], h.oldStart, b, three);
    assert Header(h) == "@@ -" + Decimal(h.oldStart) + b;
  }

  lemma EditReads(hunks: seq<Hunk>, h: Hunk, e: Edit, line: Line)
    requires EditText(e) == line + "\n"
    ensures ReadLine(hunks + [h], line) == Some(hunks + [h.(body := h.body + [e])])
  {
    hide ReadNumbers;
    var mark := match e.kind case Same => " " case Removed => "-" case Added => "+";
    assert line == EditText(e)[..|line|] == (mark + e.text + "\n")[..|line|] == mark + e.text;
    assert line[1..] == e.text && ReadEdit(line) == Some(e);
    NotAHeader(line);
    assert (hunks + [h])[..|hunks|] == hunks;
  }

  lemma NotAHeader(line: Line)
    requires line != "" && line[0] != '@'
    ensures ReadHeader(line) == None
  {
    var word := "@@ -";
    assert !(word <= line) by { assert word[0] == '@'; }
  }

  lemma {:induction false} BodyReads(text: string, hunks: seq<Hunk>, h: Hunk, body: seq<Edit>)
    requires Whole(text) && ReadPatch(text) == Some(hunks + [h.(body := [])]) && forall e <- body :: '\n' !in e.text
    ensures ReadPatch(text + BodyText(body)) == Some(hunks + [h.(body := body)]) && Whole(text + BodyText(body))
  {
    hide ReadPatch, EditText, ReadLine;
    if body == [] {
      assert text + "" == text;
    } else {
      var n := |body| - 1;
      var e := body[n];
      BodyReads(text, hunks, h, body[..n]);
      var line := EditLine(e);
      ReadsOn(text + BodyText(body[..n]), line, hunks + [h.(body := body[..n])]);
      EditReads(hunks, h.(body := body[..n]), e, line);
      assert body == body[..n] + [e];
      assert text + BodyText(body) == text + BodyText(body[..n]) + line + "\n";
    }
  }

  lemma EditLine(e: Edit) returns (line: Line)
    requires '\n' !in e.text
    ensures EditText(e) == line + "\n" && '\n' !in line
  {
    line := (match e.kind case Same => " " case Removed => "-" case Added => "+") + e.text;
  }

  /** From its text a reader gets exactly the hunks back. */
  lemma {:induction false} TextReads(hunks: seq<Hunk>)
    requires forall h <- hunks :: Printable(h)
    ensures ReadPatch(Text(hunks)) == Some(hunks) && Whole(Text(hunks))
  {
    hide HunkText, Printable, SplitLines, ReadLines;
    if hunks == [] {
      NothingReads();
    } else {
      var n := |hunks| - 1;
      var h, text := hunks[n], Text(hunks[..n]);
      TextReads(hunks[..n]);
      HunkReads(text, hunks[..n], h);
      assert hunks == hunks[..n] + [h];
    }
  }

  lemma NothingReads()
    ensures ReadPatch("") == Some([])
  {
  }

  lemma HunkReads(text: string, hunks: seq<Hunk>, h: Hunk)
    requires Whole(text) && ReadPatch(text) == Some(hunks) && Printable(h)
    ensures ReadPatch(text + HunkText(h)) == Some(hunks + [h]) && Whole(text + HunkText(h))
  {
    hide ReadPatch, Header, BodyText, ReadHeader, ReadEdit;
    HeaderReads(h);
    ReadsOn(text, Header(h), hunks);
    BodyReads(text + Header(h) + "\n", hunks, h, h.body);
    assert text + HunkText(h) == text + Header(h) + "\n" + BodyText(h.body);
    assert h.(body := h.body) == h;
  }

  // ---- What a rendering must satisfy ----

  ghost predicate AllSame(edits: seq<Edit>, lo: nat, hi: nat) {
    forall p :: lo <= p < hi && p < |edits| ==> edits[p].kind == Same
  }

  /** The span opens and closes with as much context as there is, up to `context` lines, and no more; inside it
      no unchanged run is longer than `context`. */
  ghost predicate WellCut(edits: seq<Edit>, context: nat, s: Span) {
    && s.start <= s.first <= s.last < s.end <= |edits|
    && edits[s.first].kind != Same && edits[s.last].kind != Same
    && AllSame(edits, s.start, s.first) && AllSame(edits, s.last + 1, s.end)
    && s.first - s.start <= context && s.end - s.last - 1 <= context
    && (s.first - s.start == context || s.start == 0 || edits[s.start-1].kind != Same)
    && (s.end == |edits| || LongRunAfter(edits, context, s))
    && NoLongRun(edits, context, s.start, s.end)
  }

  /** A hunk ends before the script does only where more than `context` unchanged lines follow its last change. */
  ghost predicate LongRunAfter(edits: seq<Edit>, context: nat, s: Span) {
    s.end == s.last + 1 + context < |edits| && AllSame(edits, s.last + 1, s.end + 1)
  }

  /** No run of unchanged edits inside [lo, hi) is longer than `context`. */
  ghost predicate NoLongRun(edits: seq<Edit>, context: nat, lo: nat, hi: nat) {
    forall a: nat, b: nat :: lo <= a && b <= hi && AllSame(edits, a, b) ==> b - a <= context
  }

  /** The header and the body say exactly what the span holds and where it is on both sides. */
  ghost predicate Located(edits: seq<Edit>, h: Hunk, s: Span)
    requires s.start <= s.end <= |edits|
  {
    && h.body == edits[s.start..s.end]
    && h.oldStart == 1 + |LinesTo(edits, s.start, OldSide)| && h.oldCount == |Lines(h.body, OldSide)|
    && h.newStart == 1 + |LinesTo(edits, s.start, NewSide)| && h.newCount == |Lines(h.body, NewSide)|
  }

  /** Changed edits below `upTo` are each in exactly one span. */
  ghost predicate CoversOnce(edits: seq<Edit>, spans: seq<Span>, upTo: nat) {
    && (forall p :: 0 <= p < upTo && p < |edits| && edits[p].kind != Same ==>
          exists k :: 0 <= k < |spans| && spans[k].start <= p < spans[k].end)
    && (forall k, l :: 0 <= k < l < |spans| ==> spans[k].end <= spans[l].first)
  }

  ghost predicate Fits(edits: seq<Edit>, context: nat, h: Hunk, s: Span) {
    WellCut(edits, context, s) && Located(edits, h, s)
  }

  /** Hunks and spans render the first `upTo` edits. */
  ghost predicate Renders(edits: seq<Edit>, context: nat, hunks: seq<Hunk>, spans: seq<Span>, upTo: nat) {
    && |hunks| == |spans|
    && (forall k :: 0 <= k < |spans| ==> Fits(edits, context, hunks[k], spans[k]))
    && CoversOnce(edits, spans, upTo)
    && (forall k :: 0 <= k < |spans| ==> spans[k].end <= upTo)
  }

  // ---- The code ----

  ghost predicate IsRendering(edits: seq<Edit>, context: nat, out: string) {
    exists hunks, spans :: out == Text(hunks) && Renders(edits, context, hunks, spans, |edits|)
  }

  /** The hunks of a script, and a text from which a reader gets them back. */
  method Render(edits: seq<Edit>, context: nat) returns (out: string, ghost hunks: seq<Hunk>, ghost spans: seq<Span>)
    ensures IsRendering(edits, context, out)
    ensures out == Text(hunks)
    ensures Renders(edits, context, hunks, spans, |edits|)
    ensures (forall e <- edits :: '\n' !in e.text) ==> ReadPatch(out) == Some(hunks)
  {
    hide Renders, Fits, HunkText;
    out, hunks, spans := "", [], [];
    RendersNothing(edits, context);
    var oldLine, newLine, index := 1, 1, 0;
    while index < |edits|
      invariant index <= |edits|
      invariant oldLine == 1 + |LinesTo(edits, index, OldSide)| && newLine == 1 + |LinesTo(edits, index, NewSide)|
      invariant out == Text(hunks)
      invariant Renders(edits, context, hunks, spans, index)
    {
      var end := index + 1;
      if edits[index].kind != Same {
        var text;
        ghost var h, s;
        text, end, h, s := RenderHunk(edits, context, index, oldLine, newLine);
        out := out + text;
        AddSpan(edits, context, hunks, spans, index, h, s);
        assert (hunks + [h])[..|hunks|] == hunks;
        hunks, spans := hunks + [h], spans + [s];
      } else {
        SkipSame(edits, context, hunks, spans, index);
      }
      var oldCount, newCount, _ := CountBody(edits[index..end]);
      LinesBetween(edits, index, end, OldSide);
      LinesBetween(edits, index, end, NewSide);
      oldLine, newLine, index := oldLine + oldCount, newLine + newCount, end;
    }
    if forall e <- edits :: '\n' !in e.text { RenderedReads(edits, context, hunks, spans); }
  }

  lemma RenderedReads(edits: seq<Edit>, context: nat, hunks: seq<Hunk>, spans: seq<Span>)
    requires Renders(edits, context, hunks, spans, |edits|) && forall e <- edits :: '\n' !in e.text
    ensures ReadPatch(Text(hunks)) == Some(hunks)
  {
    hide WellCut, ReadPatch;
    forall h | h in hunks ensures Printable(h) {
      var k :| 0 <= k < |hunks| && hunks[k] == h;
      PartIsPrintable(edits, context, h, spans[k]);
    }
    TextReads(hunks);
  }

  lemma Spelled(h: Hunk)
    ensures HunkText(h) == "@@ -" + SignedDecimal(h.oldStart) + "," + Decimal(h.oldCount) + " +" +
                           SignedDecimal(h.newStart) + "," + Decimal(h.newCount) + " @@\n" + BodyText(h.body)
  {
    hide BodyText, SignedDecimal, Decimal;
    assert " @@" + "\n" == " @@\n";
  }

  lemma RenderedFits(edits: seq<Edit>, context: nat, h: Hunk, s: Span)
    requires WellCut(edits, context, s) && Located(edits, h, s)
    ensures Fits(edits, context, h, s)
  {
  }

  lemma OneHunkReads(edits: seq<Edit>, context: nat, h: Hunk, s: Span)
    requires Fits(edits, context, h, s) && forall e <- edits :: '\n' !in e.text
    ensures ReadPatch(HunkText(h)) == Some([h])
  {
    hide HunkText;
    PartIsPrintable(edits, context, h, s);
    TextReads([h]);
    assert Text([h]) == Text([]) + HunkText(h) == HunkText(h);
  }

  lemma PartIsPrintable(edits: seq<Edit>, context: nat, h: Hunk, s: Span)
    requires Fits(edits, context, h, s) && forall e <- edits :: '\n' !in e.text
    ensures Printable(h)
  {
    forall e | e in h.body ensures '\n' !in e.text { assert e in edits; }
  }

  lemma RendersNothing(edits: seq<Edit>, context: nat)
    ensures Renders(edits, context, [], [], 0)
  {
  }

  lemma SkipSame(edits: seq<Edit>, context: nat, hunks: seq<Hunk>, spans: seq<Span>, index: nat)
    requires index < |edits| && edits[index].kind == Same && Renders(edits, context, hunks, spans, index)
    ensures Renders(edits, context, hunks, spans, index + 1)
  {
    hide Fits;
  }

  /** One hunk: the first change is at `index`, and the line counters stand there. */
  method RenderHunk(edits: seq<Edit>, context: nat, index: nat, oldLine: int, newLine: int)
    returns (text: string, end: nat, ghost h: Hunk, ghost s: Span)
    requires index < |edits| && edits[index].kind != Same
    requires oldLine == 1 + |LinesTo(edits, index, OldSide)| && newLine == 1 + |LinesTo(edits, index, NewSide)|
    ensures s.first == index && s.end == end && end <= |edits| && end > index
    ensures Fits(edits, context, h, s) && text == HunkText(h)
    ensures (forall e <- edits :: '\n' !in e.text) ==> ReadPatch(text) == Some([h])
  {
    hide BodyText, ReadPatch, Fits, HunkText, Decimal, SignedDecimal;
    var start := OpeningContext(edits, context, index);
    ghost var last;
    end, last := HunkEnd(edits, context, start, index);
    s := Span(start, index, last, end);
    LinesBetween(edits, start, index, OldSide);
    LinesBetween(edits, start, index, NewSide);
    SameLinesBetween(edits, start, index);
    var oldStart, newStart := oldLine - (index - start), newLine - (index - start);
    var oldCount, newCount, body := CountBody(edits[start..end]);
    h := Hunk(oldStart, oldCount, newStart, newCount, edits[start..end]);
    RenderedFits(edits, context, h, s);
    text := "@@ -" + SignedDecimal(oldStart) + "," + Decimal(oldCount) + " +" +
            SignedDecimal(newStart) + "," + Decimal(newCount) + " @@\n" + body;
    Spelled(h);
    if forall e <- edits :: '\n' !in e.text { OneHunkReads(edits, context, h, s); }
  }

  /** Walk back over the context a hunk opens with. */
  method OpeningContext(edits: seq<Edit>, context: nat, index: nat) returns (start: nat)
    requires index <= |edits|
    ensures start <= index && index - start <= context && AllSame(edits, start, index)
    ensures index - start == context || start == 0 || edits[start-1].kind != Same
  {
    start := index;
    while start > 0 && edits[start-1].kind == Same && index - start < context
      invariant start <= index && index - start <= context && AllSame(edits, start, index)
    {
      start := start - 1;
    }
  }

  /** Where a hunk that has begun comes to an end. */
  method HunkEnd(edits: seq<Edit>, context: nat, start: nat, index: nat) returns (end: nat, ghost last: nat)
    requires start <= index < |edits| && edits[index].kind != Same
    requires AllSame(edits, start, index) && index - start <= context
    ensures index <= last < end <= |edits| && edits[last].kind != Same && AllSame(edits, last + 1, end)
    ensures end - last - 1 <= context && (end == |edits| || LongRunAfter(edits, context, Span(start, index, last, end)))
    ensures NoLongRun(edits, context, start, end)
  {
    end, last := index, index;
    while end < |edits|
      invariant index <= end <= |edits| && index <= last < |edits| && edits[last].kind != Same
      invariant end == index == last || (last < end && AllSame(edits, last + 1, end) && end - last - 1 <= context)
      invariant end == index || end == |edits| || last == end - 1 || edits[end].kind != Same
      invariant NoLongRun(edits, context, start, last)
      decreases |edits| - end
    {
      if edits[end].kind != Same {
        if end > index {
          RunsAcross(edits, context, start, last, end);
        }
        last := end;
        end := end + 1;
        continue;
      }
      var run := 0;
      while end + run < |edits| && edits[end+run].kind == Same
        invariant end + run <= |edits| && AllSame(edits, end, end + run)
      {
        run := run + 1;
      }
      if run > context && end + run < |edits| {
        end := end + context;
        break;
      }
      if end + run >= |edits| {
        end := end + if run < context then run else context;
        break;
      }
      end := end + run;
    }
    RunsAcross(edits, context, start, last, end);
  }

  lemma RunsAcross(edits: seq<Edit>, context: nat, start: nat, last: nat, end: nat)
    requires last < end <= |edits| && edits[last].kind != Same
    requires NoLongRun(edits, context, start, last) && AllSame(edits, last + 1, end) && end - last - 1 <= context
    ensures NoLongRun(edits, context, start, end)
  {
  }

  method CountBody(body: seq<Edit>) returns (oldCount: nat, newCount: nat, text: string)
    ensures oldCount == |Lines(body, OldSide)| && newCount == |Lines(body, NewSide)| && text == BodyText(body)
  {
    oldCount, newCount, text := 0, 0, "";
    for i := 0 to |body|
      invariant oldCount == |LinesTo(body, i, OldSide)| && newCount == |LinesTo(body, i, NewSide)|
      invariant text == BodyText(body[..i])
    {
      assert body[..i+1] == body[..i] + [body[i]];
      match body[i].kind {
        case Same => oldCount, newCount := oldCount + 1, newCount + 1;
        case Removed => oldCount := oldCount + 1;
        case Added => newCount := newCount + 1;
      }
      assert body[..i+1][..i] == body[..i];
      text := text + EditText(body[i]);
    }
    assert body[..|body|] == body;
  }

  /** The lines up to `hi` are those up to `lo` and those of the slice between. */
  lemma {:induction false} LinesBetween(edits: seq<Edit>, lo: nat, hi: nat, side: Side)
    requires lo <= hi <= |edits|
    ensures LinesTo(edits, hi, side) == LinesTo(edits, lo, side) + Lines(edits[lo..hi], side)
  {
    if lo < hi {
      LinesBetween(edits, lo, hi - 1, side);
      SliceSnoc(edits, lo, hi);
      Append(edits[lo..hi-1], edits[hi-1], side);
    }
  }

  lemma {:induction false} SameLinesBetween(edits: seq<Edit>, lo: nat, hi: nat)
    requires lo <= hi <= |edits| && AllSame(edits, lo, hi)
    ensures Lines(edits[lo..hi], OldSide) == Lines(edits[lo..hi], NewSide) && |Lines(edits[lo..hi], OldSide)| == hi - lo
  {
    if lo < hi {
      SameLinesBetween(edits, lo, hi - 1);
      SliceSnoc(edits, lo, hi);
      Append(edits[lo..hi-1], edits[hi-1], OldSide);
      Append(edits[lo..hi-1], edits[hi-1], NewSide);
    }
  }

  lemma AddSpan(edits: seq<Edit>, context: nat, hunks: seq<Hunk>, spans: seq<Span>, index: nat, h: Hunk, s: Span)
    requires Renders(edits, context, hunks, spans, index) && s.first == index
    requires Fits(edits, context, h, s)
    ensures Renders(edits, context, hunks + [h], spans + [s], s.end)
  {
    hide Fits;
    FitsInside(edits, context, h, s);
    CoverMore(edits, spans, index, s);
  }

  lemma FitsInside(edits: seq<Edit>, context: nat, h: Hunk, s: Span)
    requires Fits(edits, context, h, s)
    ensures s.start <= s.first <= s.last < s.end <= |edits|
  {
  }

  lemma CoverMore(edits: seq<Edit>, spans: seq<Span>, index: nat, s: Span)
    requires CoversOnce(edits, spans, index) && s.start <= s.first == index < s.end <= |edits|
    requires forall k :: 0 <= k < |spans| ==> spans[k].end <= index
    ensures CoversOnce(edits, spans + [s], s.end)
  {
    var spans' := spans + [s];
    forall p | 0 <= p < s.end && edits[p].kind != Same
      ensures exists k :: 0 <= k < |spans'| && spans'[k].start <= p < spans'[k].end
    {
      if p < index {
        var k :| 0 <= k < |spans| && spans[k].start <= p < spans[k].end;
        assert spans'[k] == spans[k];
      } else {
        assert spans'[|spans|] == s;
      }
    }
  }
}
