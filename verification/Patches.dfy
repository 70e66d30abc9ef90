/** What a reader makes of a rendered diff: the numbers of a header, then lines that open with a mark. */
module Patches {
  import opened Wrappers
  import opened Decimals
  import opened LineDiff
  import opened Texts

  datatype Hunk = Hunk(oldStart: int, oldCount: nat, newStart: int, newCount: nat, body: seq<Edit>)

  // ---- Reading ----

  /** `@@ -a,b +c,d @@` */
  function ReadHeader(line: Line): Option<Hunk> {
    match ReadNumbers(["@@ -", ",", " +", ","], line)
    case None => None
    case Some(f) =>
      if |f.numbers| == 4 && f.rest == " @@"
      then Some(Hunk(f.numbers[0], f.numbers[1], f.numbers[2], f.numbers[3], []))
      else None
  }

  /** A line of a hunk: its first character says to which of the two texts the others belong. */
  function ReadEdit(line: Line): Option<Edit> {
    if line == "" then None
    else if line[0] == ' ' then Some(Edit(Same, line[1..]))
    else if line[0] == '-' then Some(Edit(Removed, line[1..]))
    else if line[0] == '+' then Some(Edit(Added, line[1..]))
    else None
  }

  /** One more line of a diff of which these hunks were read. */
  function ReadLine(hunks: seq<Hunk>, line: Line): Option<seq<Hunk>> {
    match ReadHeader(line)
    case Some(h) => Some(hunks + [h])
    case None =>
      var e, last := ReadEdit(line), |hunks| - 1;
      if e == None || last < 0 then None
      else Some(hunks[..last] + [hunks[last].(body := hunks[last].body + [e.value])])
  }

  function ReadLines(lines: seq<Line>, n: nat): Option<seq<Hunk>>
    requires n <= |lines|
  {
    if n == 0 then Some([])
    else
      match ReadLines(lines, n - 1)
      case None => None
      case Some(hunks) => ReadLine(hunks, lines[n-1])
  }

  function ReadPatch(text: string): Option<seq<Hunk>> {
    ReadLines(SplitLines(text), |SplitLines(text)|)
  }

  lemma {:induction false} ReadLinesOfMore(lines: seq<Line>, line: Line, n: nat)
    requires n <= |lines|
    ensures ReadLines(lines + [line], n) == ReadLines(lines, n)
  {
    hide ReadLine;
    if n > 0 { ReadLinesOfMore(lines, line, n - 1); }
  }

  /** A diff is read line by line. */
  lemma ReadsOn(text: string, line: Line, hunks: seq<Hunk>)
    requires Whole(text) && '\n' !in line && ReadPatch(text) == Some(hunks)
    ensures ReadPatch(text + line + "\n") == ReadLine(hunks, line) && Whole(text + line + "\n")
  {
    hide ReadLine, SplitLines;
    SplitLinesSnoc(text, line);
    ReadLinesOfMore(SplitLines(text), line, |SplitLines(text)|);
  }

  // ---- Applying ----

  /** A patch program: copy what lies between the hunks, replace what each hunk covers. Two hunks may show the
      same unchanged lines; those already copied are skipped. */
  ghost function Patch(text: seq<Line>, hunks: seq<Hunk>, k: nat, cursor: nat): seq<Line>
    requires k <= |hunks|
    decreases |hunks| - k
  {
    if k == |hunks| then (if cursor <= |text| then text[cursor..] else [])
    else Piece(text, hunks[k], cursor) + Patch(text, hunks, k + 1, After(hunks[k]))
  }

  ghost function Piece(text: seq<Line>, h: Hunk, cursor: nat): seq<Line> {
    var at := h.oldStart - 1;
    if cursor <= at <= |text| then text[cursor..at] + Lines(h.body, NewSide)
    else if 0 <= at < cursor <= at + |h.body| then Lines(h.body[cursor-at..], NewSide)
    else []
  }

  ghost function After(h: Hunk): nat {
    if h.oldStart >= 1 then h.oldStart - 1 + h.oldCount else 0
  }

  /** What the hunk shows as old is what its header selects from the text, and its counts are true. */
  ghost predicate Matches(text: seq<Line>, h: Hunk) {
    && 1 <= h.oldStart && h.oldStart - 1 + h.oldCount <= |text|
    && text[h.oldStart-1..h.oldStart-1+h.oldCount] == Lines(h.body, OldSide)
    && h.newCount == |Lines(h.body, NewSide)|
  }

  /** Read a diff and apply it to a text it was made for. */
  ghost function Apply(text: seq<Line>, diff: string): Option<seq<Line>> {
    match ReadPatch(diff)
    case None => None
    case Some(hunks) => if forall h <- hunks :: Matches(text, h) then Some(Patch(text, hunks, 0, 0)) else None
  }
}
