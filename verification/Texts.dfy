/** Lines of a text (internal/diff/diff.go, splitLines). */
module Texts {
  import opened LineDiff

  function SplitOn(s: string): (pieces: seq<string>)
    ensures pieces != []
  {
    if s == "" then [""]
    else
      var rest := SplitOn(s[1..]);
      if s[0] == '\n' then [""] + rest else [[s[0]] + rest[0]] + rest[1..]
  }

  function SplitLines(s: string): seq<Line> {
    if s == "" then []
    else
      var pieces := SplitOn(s);
      if pieces[|pieces|-1] == "" then pieces[..|pieces|-1] else pieces
  }

  function Terminated(lines: seq<Line>): string {
    if lines == [] then "" else lines[0] + "\n" + Terminated(lines[1..])
  }

  /** A text up to the newline its last line may lack. */
  function WithFinalNewline(s: string): string {
    if s == "" || s[|s|-1] == '\n' then s else s + "\n"
  }

  lemma LongerFirst(c: char, line: Line, more: string, text: string)
    requires line + "\n" + more == text
    ensures ([c] + line) + "\n" + more == [c] + text
  {
  }

  lemma {:induction false} SplitOnTerminated(s: string)
    ensures Terminated(SplitOn(s)) == s + "\n"
    ensures SplitOn(s)[|SplitOn(s)|-1] == "" <==> s == "" || s[|s|-1] == '\n'
    ensures forall piece <- SplitOn(s) :: '\n' !in piece
  {
    if s != "" {
      SplitOnTerminated(s[1..]);
      var rest, all := SplitOn(s[1..]), SplitOn(s);
      assert all[1..] == if s[0] == '\n' then rest else rest[1..];
      assert |s| > 1 ==> s[1..][|s|-2] == s[|s|-1];
      assert s == [s[0]] + s[1..];
      if s[0] != '\n' {
        LongerFirst(s[0], rest[0], Terminated(rest[1..]), s[1..] + "\n");
      } else {
        assert Terminated(all) == all[0] + "\n" + Terminated(all[1..]) == ['\n'] + (s[1..] + "\n");
      }
    } else {
      assert Terminated([""]) == "" + "\n" + Terminated([]);
    }
  }

  lemma {:induction false} TerminatedSnoc(lines: seq<Line>, line: Line)
    ensures Terminated(lines + [line]) == Terminated(lines) + line + "\n"
  {
    if lines == [] {
      assert lines + [line] == [line];
    } else {
      assert (lines + [line])[1..] == lines[1..] + [line];
      TerminatedSnoc(lines[1..], line);
    }
  }

  /** Splitting loses nothing but a missing final newline. */
  lemma SplitLinesTerminated(s: string)
    ensures Terminated(SplitLines(s)) == WithFinalNewline(s)
    ensures forall line <- SplitLines(s) :: '\n' !in line
  {
    if s != "" {
      SplitOnTerminated(s);
      var pieces := SplitOn(s);
      var n := |pieces| - 1;
      assert pieces == pieces[..n] + [pieces[n]];
      TerminatedSnoc(pieces[..n], pieces[n]);
      if pieces[n] == "" {
        assert Terminated(pieces[..n]) + "\n" == s + "\n";
        assert Terminated(pieces[..n]) == (Terminated(pieces[..n]) + "\n")[..|s|] == (s + "\n")[..|s|] == s;
      }
    }
  }

  ghost function LineEnd(s: string): nat {
    if s == "" || s[0] == '\n' then 0 else 1 + LineEnd(s[1..])
  }

  lemma {:induction false} LineEndIsFirstNewline(line: Line, rest: string)
    requires '\n' !in line
    ensures LineEnd(line + "\n" + rest) == |line|
  {
    if line != "" {
      assert (line + "\n" + rest)[1..] == line[1..] + "\n" + rest;
      LineEndIsFirstNewline(line[1..], rest);
    }
  }

  lemma {:induction false} TerminatedInjective(a: seq<Line>, b: seq<Line>)
    requires (forall line <- a :: '\n' !in line) && (forall line <- b :: '\n' !in line)
    requires Terminated(a) == Terminated(b)
    ensures a == b
  {
    if a != [] && b != [] {
      var s, t := a[0] + "\n" + Terminated(a[1..]), b[0] + "\n" + Terminated(b[1..]);
      LineEndIsFirstNewline(a[0], Terminated(a[1..]));
      LineEndIsFirstNewline(b[0], Terminated(b[1..]));
      var n := |a[0]|;
      assert a[0] == s[..n] == t[..n] == b[0];
      assert Terminated(a[1..]) == s[n+1..] == t[n+1..] == Terminated(b[1..]);
      TerminatedInjective(a[1..], b[1..]);
      assert a == [a[0]] + a[1..] && b == [b[0]] + b[1..];
    }
  }

  lemma SameLines(before: string, after: string)
    ensures SplitLines(before) == SplitLines(after) <==> WithFinalNewline(before) == WithFinalNewline(after)
  {
    SplitLinesTerminated(before);
    SplitLinesTerminated(after);
    if WithFinalNewline(before) == WithFinalNewline(after) {
      TerminatedInjective(SplitLines(before), SplitLines(after));
    }
  }

  /** Every line of this text has its newline. */
  predicate Whole(text: string) { text == "" || text[|text|-1] == '\n' }

  /** One more line of text is one more line. */
  lemma SplitLinesSnoc(text: string, line: Line)
    requires Whole(text) && '\n' !in line
    ensures SplitLines(text + line + "\n") == SplitLines(text) + [line] && Whole(text + line + "\n")
  {
    var more := text + line + "\n";
    SplitLinesTerminated(text);
    SplitLinesTerminated(more);
    TerminatedSnoc(SplitLines(text), line);
    TerminatedInjective(SplitLines(more), SplitLines(text) + [line]);
  }
}
