/** Standalone /saga markers in a prompt (internal/cli/saga_marker.go). A string is a sequence of runes. */
module SagaMarker {

  const MARKER := "/saga"

  /** unicode.IsSpace. */
  predicate IsSpace(c: char) {
    var r := c as int;
    || 9 <= r <= 13 || r == 32 || r == 0x85 || r == 0xA0 || r == 0x1680 || 0x2000 <= r <= 0x200A
    || r == 0x2028 || r == 0x2029 || r == 0x202F || r == 0x205F || r == 0x3000
  }

  predicate Blank(s: string) { forall c <- s :: IsSpace(c) }

  // ---- The meaning: a prompt is its words ----

  /** The whitespace-separated words of s[i..], the first of them begun already with `begun`. */
  function WordsFrom(s: string, i: nat, begun: string): seq<string>
    requires i <= |s|
    decreases |s| - i
  {
    if i == |s| then (if begun == "" then [] else [begun])
    else if IsSpace(s[i]) then (if begun == "" then [] else [begun]) + WordsFrom(s, i + 1, "")
    else WordsFrom(s, i + 1, begun + [s[i]])
  }

  function Words(s: string): seq<string> {
    WordsFrom(s, 0, "")
  }

  /** The first n words without the markers among them. */
  function Kept(words: seq<string>, n: nat): seq<string>
    requires n <= |words|
  {
    if n == 0 then [] else Kept(words, n - 1) + if words[n-1] == MARKER then [] else [words[n-1]]
  }

  function WithoutMarkers(words: seq<string>): seq<string> {
    Kept(words, |words|)
  }

  predicate OpensOnSpace(s: string) { s == "" || IsSpace(s[0]) }

  predicate Occurs(s: string, p: nat) {
    p + 5 <= |s| && s[p..p+5] == MARKER
  }

  /** The marker stands at p between spaces or the ends of the prompt. */
  predicate MarkerAt(s: string, p: nat) {
    && Occurs(s, p)
    && (p > 0 ==> IsSpace(s[p-1])) && (p + 5 < |s| ==> IsSpace(s[p+5]))
  }

  /** Words do not run across a space. */
  lemma {:induction false} WordsSplit(a: string, b: string, i: nat, begun: string)
    requires i <= |a| && OpensOnSpace(b)
    ensures WordsFrom(a + b, i, begun) == WordsFrom(a, i, begun) + Words(b)
    decreases |a| - i
  {
    if i == |a| {
      if b != "" {
        WordsShift(a, b, 0, begun);
        assert WordsFrom(b, 0, begun) == (if begun == "" then [] else [begun]) + WordsFrom(b, 1, "");
      } else {
        assert a + b == a;
      }
    } else if IsSpace(a[i]) {
      WordsSplit(a, b, i + 1, "");
      var first, mine := if begun == "" then [] else [begun], WordsFrom(a, i + 1, "");
      assert first + (mine + Words(b)) == (first + mine) + Words(b);
    } else {
      WordsSplit(a, b, i + 1, begun + [a[i]]);
    }
  }

  lemma {:induction false} WordsShift(a: string, b: string, i: nat, begun: string)
    requires i <= |b|
    ensures WordsFrom(a + b, |a| + i, begun) == WordsFrom(b, i, begun)
    decreases |b| - i
  {
    if i < |b| {
      if IsSpace(b[i]) { WordsShift(a, b, i + 1, ""); } else { WordsShift(a, b, i + 1, begun + [b[i]]); }
    }
  }

  lemma {:induction false} WordsOfBlank(s: string, i: nat)
    requires i <= |s| && Blank(s)
    ensures WordsFrom(s, i, "") == []
    decreases |s| - i
  {
    if i < |s| { WordsOfBlank(s, i + 1); }
  }

  lemma {:induction false} KeptPrefix(a: seq<string>, b: seq<string>, n: nat)
    requires n <= |a|
    ensures Kept(a + b, n) == Kept(a, n)
  {
    if n > 0 { KeptPrefix(a, b, n - 1); }
  }

  lemma {:induction false} KeptConcat(a: seq<string>, b: seq<string>, n: nat)
    requires n <= |b|
    ensures Kept(a + b, |a| + n) == WithoutMarkers(a) + Kept(b, n)
  {
    if n == 0 {
      KeptPrefix(a, b, |a|);
    } else {
      KeptConcat(a, b, n - 1);
      assert (a + b)[|a|+n-1] == b[n-1];
    }
  }

  lemma FilterConcat(a: seq<string>, b: seq<string>)
    ensures WithoutMarkers(a + b) == WithoutMarkers(a) + WithoutMarkers(b)
  {
    KeptConcat(a, b, |b|);
  }

  lemma {:induction false} FilterNothing(words: seq<string>, n: nat)
    requires n <= |words| && MARKER !in words
    ensures Kept(words, n) == words[..n]
  {
    if n > 0 {
      FilterNothing(words, n - 1);
      assert words[n-1] in words;
    }
  }

  lemma {:induction false} FilterLeavesNone(words: seq<string>, n: nat)
    requires n <= |words|
    ensures MARKER !in Kept(words, n)
  {
    if n > 0 { FilterLeavesNone(words, n - 1); }
  }

  /** A word equal to the marker is a standalone occurrence of it. `begun` is what of the first word lies before i. */
  lemma {:induction false} MarkerWordIsAt(s: string, i: nat, begun: string) returns (p: nat)
    requires i <= |s| && |begun| <= i && begun == s[i-|begun|..i] && (forall c <- begun :: !IsSpace(c))
    requires |begun| < i ==> IsSpace(s[i-|begun|-1])
    requires MARKER in WordsFrom(s, i, begun)
    ensures MarkerAt(s, p) && p >= i - |begun|
    decreases |s| - i
  {
    p := 0;
    if begun == MARKER && (i == |s| || IsSpace(s[i])) {
      p := i - 5;
    } else if i < |s| && IsSpace(s[i]) {
      p := MarkerWordIsAt(s, i + 1, "");
    } else if i < |s| {
      assert begun + [s[i]] == s[i-|begun|..i+1];
      p := MarkerWordIsAt(s, i + 1, begun + [s[i]]);
    }
  }

  /** No standalone occurrence, no marker among the words. */
  lemma NoMarkerNoWord(s: string)
    requires forall p :: 0 <= p < |s| ==> !MarkerAt(s, p)
    ensures MARKER !in Words(s)
  {
    if MARKER in Words(s) {
      var p := MarkerWordIsAt(s, 0, "");
    }
  }

  lemma MarkerIsOneWord(rest: string)
    requires OpensOnSpace(rest)
    ensures Words(MARKER + rest) == [MARKER] + Words(rest)
  {
    WordsSplit(MARKER, rest, 0, "");
    assert WordsFrom(MARKER, 5, "/saga") == ["/saga"];
    assert "/sag" + "a" == "/saga" && "/sa" + "g" == "/sag" && "/s" + "a" == "/sa" && "/" + "s" == "/s"
        && "" + "/" == "/";
    assert WordsFrom(MARKER, 4, "/sag") == WordsFrom(MARKER, 5, "/sag" + "a");
    assert WordsFrom(MARKER, 3, "/sa") == WordsFrom(MARKER, 4, "/sa" + "g");
    assert WordsFrom(MARKER, 2, "/s") == WordsFrom(MARKER, 3, "/s" + "a");
    assert WordsFrom(MARKER, 1, "/") == WordsFrom(MARKER, 2, "/" + "s");
    assert WordsFrom(MARKER, 0, "") == WordsFrom(MARKER, 1, "" + "/");
  }

  /** Splitting a prompt at a space, or at its beginning, splits its words. */
  lemma WordsJoin(a: string, b: string)
    requires a == "" || IsSpace(a[|a|-1]) || OpensOnSpace(b)
    ensures Words(a + b) == Words(a) + Words(b)
  {
    if OpensOnSpace(b) {
      WordsSplit(a, b, 0, "");
    } else if a == "" {
      assert a + b == b;
    } else {
      var front, space := a[..|a|-1], [a[|a|-1]];
      WordsSplit(front, space + b, 0, "");
      WordsSplit(front, space, 0, "");
      WordsShift(space, b, 0, "");
      WordsOfBlank(space, 0);
      assert a == front + space && a + b == front + (space + b);
      assert Words(space + b) == [] + WordsFrom(space + b, 1, "");
    }
  }

  /** strings.TrimSpace. */
  function TrimSpace(s: string): (t: string)
    ensures t == "" || (!IsSpace(t[0]) && !IsSpace(t[|t|-1]))
    decreases |s|
  {
    if s == "" then ""
    else if IsSpace(s[0]) then TrimSpace(s[1..])
    else if IsSpace(s[|s|-1]) then TrimSpace(s[..|s|-1])
    else s
  }

  lemma {:induction false} TrimKeepsWords(s: string)
    ensures Words(TrimSpace(s)) == Words(s)
    decreases |s|
  {
    if s == "" {
    } else if IsSpace(s[0]) {
      TrimKeepsWords(s[1..]);
      WordsJoin([s[0]], s[1..]);
      WordsOfBlank([s[0]], 0);
      assert [s[0]] + s[1..] == s;
    } else if IsSpace(s[|s|-1]) {
      var front, space := s[..|s|-1], [s[|s|-1]];
      TrimKeepsWords(front);
      WordsJoin(front, space);
      WordsOfBlank(space, 0);
      assert front + space == s;
    }
  }

  lemma OccursInside(s: string, lo: nat, hi: nat, p: nat)
    requires lo <= hi <= |s| && Occurs(s[lo..hi], p)
    ensures Occurs(s, lo + p) && s[lo+p] == '/' && s[lo+p+4] == 'a'
  {
    var t := s[lo..hi];
    forall k | 0 <= k < 5 ensures s[lo+p+k] == MARKER[k] {
      assert t[p..p+5][k] == t[p+k] == s[lo+p+k];
    }
    assert s[lo+p..lo+p+5] == MARKER;
  }

  /** A stretch of the prompt without a standalone marker has no marker among its words, if it starts and ends where
      words do. */
  lemma NoMarkerBetween(s: string, lo: nat, hi: nat)
    requires lo <= hi <= |s| && (lo > 0 ==> OpensOnSpace(s[lo..])) && (0 < hi < |s| ==> IsSpace(s[hi-1]))
    requires forall p :: lo <= p < hi ==> !MarkerAt(s, p)
    ensures MARKER !in Words(s[lo..hi]) && WithoutMarkers(Words(s[lo..hi])) == Words(s[lo..hi])
  {
    var mid := s[lo..hi];
    forall p | 0 <= p < |mid| ensures !MarkerAt(mid, p) {
      if Occurs(mid, p) {
        OccursInside(s, lo, hi, p);
        var outer := MarkerAt(s, lo + p);
      }
    }
    NoMarkerNoWord(mid);
    FilterNothing(Words(mid), |Words(mid)|);
  }

  // ---- The code ----

  /** strings.Index: the first occurrence of the marker at or after `from`. */
  method IndexMarker(s: string, from: nat) returns (start: int)
    requires from <= |s|
    ensures start >= 0 ==> from <= start && Occurs(s, start)
    ensures forall p :: from <= p < (if start >= 0 then start else |s|) ==> !Occurs(s, p)
  {
    var i := from;
    while i + 5 <= |s|
      invariant from <= i
      invariant forall p :: from <= p < i ==> !Occurs(s, p)
    {
      if s[i..i+5] == MARKER { return i; }
      i := i + 1;
    }
    return -1;
  }

  predicate SagaMarkerBoundary(prompt: string, start: nat, end: nat)
    requires start <= end <= |prompt|
  {
    && (start > 0 ==> IsSpace(prompt[start-1]))
    && (end < |prompt| ==> IsSpace(prompt[end]))
  }

  /** The loop's state: everything up to `copied` is in `out` without its markers, and no marker stands in
      [copied, search). */
  ghost predicate Copied(prompt: string, out: string, copied: nat, search: nat, found: bool) {
    && copied <= search <= |prompt|
    && (copied > 0 ==> OpensOnSpace(prompt[copied..])) && (copied == 0 ==> out == "")
    && WithoutMarkers(Words(prompt[..copied])) == Words(out)
    && (found <==> MARKER in Words(prompt[..copied]))
    && (forall p :: copied <= p < search ==> !MarkerAt(prompt, p))
  }

  /** A marker is reported exactly when /saga is one of the prompt's words, and what is left are its other words, in
      order; a second scan would find none. */
  method InlineSagaPrompt(prompt: string) returns (rest: string, found: bool)
    ensures found <==> MARKER in Words(prompt)
    ensures !found ==> rest == prompt
    ensures Words(rest) == WithoutMarkers(Words(prompt)) && MARKER !in Words(rest)
    ensures found ==> rest == "" || (!IsSpace(rest[0]) && !IsSpace(rest[|rest|-1]))
  {
    var out := "";
    var search, copied := 0, 0;
    found := false;
    FilterLeavesNone(Words(prompt), |Words(prompt)|);
    while search < |prompt|
      invariant Copied(prompt, out, copied, search, found)
      decreases |prompt| - search
    {
      var start := IndexMarker(prompt, search);
      NoneBefore(prompt, search, start);
      if start < 0 {
        search := |prompt|;
        break;
      }
      var end := start + 5;
      if SagaMarkerBoundary(prompt, start, end) {
        CopyMarker(prompt, out, copied, search, found, start);
        out := out + prompt[copied..start];
        copied, search, found := end, end, true;
      } else {
        NoOverlap(prompt, start);
        search := end;
      }
    }
    CopyRest(prompt, out, copied, found);
    if !found { return prompt, false; }
    out := out + prompt[copied..];
    rest := TrimSpace(out);
    TrimKeepsWords(out);
  }

  lemma NoneBefore(prompt: string, search: nat, start: int)
    requires forall p :: search <= p < (if start >= 0 then start else |prompt|) ==> !Occurs(prompt, p)
    ensures forall p :: search <= p < (if start >= 0 then start else |prompt|) ==> !MarkerAt(prompt, p)
  {
  }

  /** Copying up to a marker and skipping it. */
  lemma CopyMarker(prompt: string, out: string, copied: nat, search: nat, found: bool, start: nat)
    requires Copied(prompt, out, copied, search, found) && search <= start && MarkerAt(prompt, start)
    requires forall p :: search <= p < start ==> !MarkerAt(prompt, p)
    ensures Copied(prompt, out + prompt[copied..start], start + 5, start + 5, true)
  {
    hide WordsFrom, MarkerAt;
    MarkerFacts(prompt, start);
    var before, mid := prompt[..copied], prompt[copied..start];
    NoMarkerBetween(prompt, copied, start);
    WordsJoin(before, mid);
    WordsJoin(out, mid);
    assert before + mid == prompt[..start] && prompt[..start] + MARKER == prompt[..start+5];
    WordsJoin(prompt[..start], MARKER);
    JustMarker();
    FilterConcat(Words(before), Words(mid));
    FilterConcat(Words(before) + Words(mid), [MARKER]);
    assert (Words(before) + Words(mid) + [MARKER])[|Words(before)| + |Words(mid)|] == MARKER;
    assert Words(out) + Words(mid) + [] == Words(out) + Words(mid);
  }

  lemma JustMarker()
    ensures Words(MARKER) == [MARKER] && WithoutMarkers([MARKER]) == []
  {
    MarkerIsOneWord("");
    assert MARKER + "" == MARKER;
    assert Kept([MARKER], 0) == [];
  }

  lemma MarkerFacts(prompt: string, start: nat)
    requires MarkerAt(prompt, start)
    ensures start + 5 <= |prompt| && prompt[start..start+5] == MARKER && (start > 0 ==> IsSpace(prompt[start-1]))
    ensures OpensOnSpace(prompt[start+5..])
  {
  }

  /** What is left after the last marker is copied as it is. */
  lemma CopyRest(prompt: string, out: string, copied: nat, found: bool)
    requires Copied(prompt, out, copied, |prompt|, found)
    ensures Words(out + prompt[copied..]) == WithoutMarkers(Words(prompt))
    ensures found <==> MARKER in Words(prompt)
    ensures !found ==> WithoutMarkers(Words(prompt)) == Words(prompt)
  {
    hide WordsFrom, MarkerAt;
    var before, tail := prompt[..copied], prompt[copied..];
    assert tail == prompt[copied..|prompt|] && before + tail == prompt;
    NoMarkerBetween(prompt, copied, |prompt|);
    WordsJoin(before, tail);
    WordsJoin(out, tail);
    FilterConcat(Words(before), Words(tail));
    if !found { FilterNothing(Words(prompt), |Words(prompt)|); }
  }

  /** Between the first and the last character of an occurrence no other can start. */
  lemma NoOverlap(prompt: string, start: nat)
    requires Occurs(prompt, start) && !MarkerAt(prompt, start)
    ensures forall p :: start <= p < start + 5 ==> !MarkerAt(prompt, p)
  {
    forall p | start < p < start + 5 ensures !MarkerAt(prompt, p) {
      assert prompt[p] == prompt[start..start+5][p-start] != '/';
      if p + 5 <= |prompt| { assert prompt[p..p+5][0] == prompt[p]; }
    }
  }
}
