/** Well-formed UTF-8 (section 4 of RFC 3629), over strings whose characters are bytes. */
module Utf8 {

  predicate Byte(c: char, lo: int, hi: int) { lo <= c as int <= hi }

  predicate Tail(c: char) { Byte(c, 0x80, 0xBF) }

  /** utf8.RuneStart: not a continuation byte. */
  predicate RuneStart(c: char) { !Tail(c) }

  /** The length of the character that starts at i and ends by `end`, or 0 when there is none. */
  function RuneLength(s: string, i: nat, end: nat): (n: nat)
    requires i < end <= |s|
    ensures i + n <= end && forall k :: i < k < i + n ==> Tail(s[k])
  {
    var b := s[i];
    if Byte(b, 0x00, 0x7F) then 1
    else if i + 1 < end && Byte(b, 0xC2, 0xDF) && Tail(s[i+1]) then 2
    else if i + 2 < end && Tail(s[i+1]) && Tail(s[i+2]) &&
            (if b as int == 0xE0 then Byte(s[i+1], 0xA0, 0xBF)
             else if b as int == 0xED then Byte(s[i+1], 0x80, 0x9F)
             else Byte(b, 0xE1, 0xEF)) then 3
    else if i + 3 < end && Tail(s[i+1]) && Tail(s[i+2]) && Tail(s[i+3]) &&
            (if b as int == 0xF0 then Byte(s[i+1], 0x90, 0xBF)
             else if b as int == 0xF4 then Byte(s[i+1], 0x80, 0x8F)
             else Byte(b, 0xF1, 0xF3)) then 4
    else 0
  }

  /** s[i..end] is a sequence of well-formed characters. */
  predicate ValidRange(s: string, i: nat, end: nat)
    requires i <= end <= |s|
    decreases end - i
  {
    i == end || (RuneLength(s, i, end) > 0 && ValidRange(s, i + RuneLength(s, i, end), end))
  }

  predicate Valid(s: string) { ValidRange(s, 0, |s|) }

  /** Valid text may be cut wherever a character starts. */
  lemma {:induction false} CutAtRuneStart(s: string, i: nat, k: nat, end: nat)
    requires i <= k <= end <= |s| && ValidRange(s, i, end) && (k == end || RuneStart(s[k]))
    ensures ValidRange(s, i, k) && ValidRange(s, k, end)
    decreases end - i
  {
    if i < k {
      var n := RuneLength(s, i, end);
      CutAtRuneStart(s, i + n, k, end);
      assert RuneLength(s, i, k) == n;
    }
  }

  lemma {:induction false} ValidJoin(s: string, i: nat, k: nat, end: nat)
    requires i <= k <= end <= |s| && ValidRange(s, i, k) && ValidRange(s, k, end)
    ensures ValidRange(s, i, end)
    decreases k - i
  {
    if i < k {
      var n := RuneLength(s, i, k);
      ValidJoin(s, i + n, k, end);
      assert RuneLength(s, i, end) == n;
    }
  }

  /** The character that a position of valid text belongs to: it starts at most three bytes before, and the next one
      starts, or the text ends, at most three bytes after. */
  lemma {:induction false} RuneAround(s: string, i: nat, p: nat, end: nat) returns (q: nat, next: nat)
    requires i <= p < end <= |s| && ValidRange(s, i, end)
    ensures i <= q <= p < next <= end && next <= q + 4 && RuneStart(s[q])
    ensures next == end || RuneStart(s[next])
    decreases end - i
  {
    var n := RuneLength(s, i, end);
    if p < i + n {
      q, next := i, i + n;
      if next < end { var more := RuneLength(s, next, end); }
    } else {
      q, next := RuneAround(s, i + n, p, end);
    }
  }

  /** Validity is a matter of the bytes, not of where they stand. */
  lemma {:induction false} ValidMoved(s: string, i: nat, end: nat, t: string, j: nat)
    requires i <= end <= |s| && j + (end - i) <= |t| && ValidRange(s, i, end)
    requires forall k :: i <= k < end ==> t[j+k-i] == s[k]
    ensures ValidRange(t, j, j + (end - i))
    decreases end - i
  {
    if i < end {
      SameRune(s, i, end, t, j);
      var n := RuneLength(s, i, end);
      ValidMoved(s, i + n, end, t, j + n);
    }
  }

  lemma SameRune(s: string, i: nat, end: nat, t: string, j: nat)
    requires i < end <= |s| && j + (end - i) <= |t|
    requires forall k :: i <= k < end ==> t[j+k-i] == s[k]
    ensures RuneLength(t, j, j + (end - i)) == RuneLength(s, i, end)
  {
    assert t[j] == s[i] by { assert t[j+i-i] == s[i]; }
    if i + 1 < end { assert t[j+(i+1)-i] == s[i+1]; }
    if i + 2 < end { assert t[j+(i+2)-i] == s[i+2]; }
    if i + 3 < end { assert t[j+(i+3)-i] == s[i+3]; }
  }

  predicate Ascii(s: string) { forall k :: 0 <= k < |s| ==> s[k] as int < 0x80 }

  lemma {:induction false} AsciiIsValid(s: string, i: nat)
    requires i <= |s| && Ascii(s)
    ensures ValidRange(s, i, |s|)
    decreases |s| - i
  {
    if i < |s| { AsciiIsValid(s, i + 1); }
  }

  lemma ValidConcat(a: string, b: string)
    requires Valid(a) && Valid(b)
    ensures Valid(a + b)
  {
    hide ValidRange;
    ValidMoved(a, 0, |a|, a + b, 0);
    ValidMoved(b, 0, |b|, a + b, |a|);
    ValidJoin(a + b, 0, |a|, |a + b|);
  }

  lemma ValidSlice(s: string, i: nat, end: nat)
    requires i <= end <= |s| && ValidRange(s, i, end)
    ensures Valid(s[i..end])
  {
    ValidMoved(s, i, end, s[i..end], 0);
  }
}
