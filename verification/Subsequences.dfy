/** Common subsequences: the independent meaning against which the line diff is judged. */
module Subsequences {

  /** `c` is what is left of `s` after deleting some of its elements. */
  ghost predicate IsSubsequence<T>(c: seq<T>, s: seq<T>)
    decreases |s|
  {
    c == [] ||
    (s != [] && ((c[0] == s[0] && IsSubsequence(c[1..], s[1..])) || IsSubsequence(c, s[1..])))
  }

  ghost predicate IsCommon<T>(c: seq<T>, a: seq<T>, b: seq<T>) {
    IsSubsequence(c, a) && IsSubsequence(c, b)
  }

  /** The recurrence of the length of a longest common subsequence of what is left from (i, j). */
  ghost function LcsFrom<T>(a: seq<T>, b: seq<T>, i: nat, j: nat): nat
    requires i <= |a| && j <= |b|
    decreases |a| - i + |b| - j
  {
    if i == |a| || j == |b| then 0
    else if a[i] == b[j] then LcsFrom(a, b, i + 1, j + 1) + 1
    else
      var skipA, skipB := LcsFrom(a, b, i + 1, j), LcsFrom(a, b, i, j + 1);
      if skipA >= skipB then skipA else skipB
  }

  ghost function LcsLength<T>(a: seq<T>, b: seq<T>): nat {
    LcsFrom(a, b, 0, 0)
  }

  lemma {:induction false} SubsequenceRest<T>(c: seq<T>, s: seq<T>)
    requires c != [] && s != [] && IsSubsequence(c, s)
    ensures IsSubsequence(c[1..], s[1..])
    decreases |s|
  {
    if !(c[0] == s[0] && IsSubsequence(c[1..], s[1..])) {
      SubsequenceRest(c, s[1..]);
    }
  }

  lemma {:induction false} SubsequenceFront<T>(c: seq<T>, s: seq<T>)
    requires c != [] && s != [] && IsSubsequence(c, s)
    ensures IsSubsequence(c[..|c|-1], s[..|s|-1])
    decreases |s|
  {
    var c', s' := c[..|c|-1], s[..|s|-1];
    if |c| > 1 {
      assert |s| > 1;
      assert s'[1..] == s[1..][..|s|-2];
      if c[0] == s[0] && IsSubsequence(c[1..], s[1..]) {
        SubsequenceFront(c[1..], s[1..]);
        assert c'[1..] == c[1..][..|c|-2];
      } else {
        SubsequenceFront(c, s[1..]);
      }
    }
  }

  /** No common subsequence is longer than the recurrence says. */
  lemma {:induction false} LcsIsUpperBound<T>(c: seq<T>, a: seq<T>, b: seq<T>, i: nat, j: nat)
    requires i <= |a| && j <= |b| && IsCommon(c, a[i..], b[j..])
    ensures |c| <= LcsFrom(a, b, i, j)
    decreases |a| - i + |b| - j
  {
    if c != [] {
      assert a[i..][1..] == a[i+1..] && b[j..][1..] == b[j+1..];
      if a[i] == b[j] {
        SubsequenceRest(c, a[i..]);
        SubsequenceRest(c, b[j..]);
        LcsIsUpperBound(c[1..], a, b, i + 1, j + 1);
      } else if c[0] != a[i] {
        LcsIsUpperBound(c, a, b, i + 1, j);
      } else {
        LcsIsUpperBound(c, a, b, i, j + 1);
      }
    }
  }

  /** Trimming a shared prefix and suffix costs nothing: the bound survives it. */
  lemma {:induction false} TrimmedUpperBound<T>(c: seq<T>, p: seq<T>, a: seq<T>, b: seq<T>, s: seq<T>)
    requires IsCommon(c, p + a + s, p + b + s)
    ensures |c| <= |p| + LcsLength(a, b) + |s|
    decreases |p| + |s|
  {
    if c == [] {
    } else if p != [] {
      SubsequenceRest(c, p + a + s);
      SubsequenceRest(c, p + b + s);
      assert (p + a + s)[1..] == p[1..] + a + s && (p + b + s)[1..] == p[1..] + b + s;
      TrimmedUpperBound(c[1..], p[1..], a, b, s);
    } else if s != [] {
      SubsequenceFront(c, p + a + s);
      SubsequenceFront(c, p + b + s);
      var s' := s[..|s|-1];
      assert (p + a + s)[..|p + a + s|-1] == p + a + s' && (p + b + s)[..|p + b + s|-1] == p + b + s';
      TrimmedUpperBound(c[..|c|-1], p, a, b, s');
    } else {
      assert p + a + s == a[0..] && p + b + s == b[0..];
      LcsIsUpperBound(c, a, b, 0, 0);
    }
  }

  lemma {:induction false} SubsequenceConcat<T>(c: seq<T>, s: seq<T>, d: seq<T>, t: seq<T>)
    requires IsSubsequence(c, s) && IsSubsequence(d, t)
    ensures IsSubsequence(c + d, s + t)
    decreases |s|
  {
    if s == [] {
      assert c + d == d && s + t == t;
    } else {
      assert (s + t)[1..] == s[1..] + t;
      if c != [] && c[0] == s[0] && IsSubsequence(c[1..], s[1..]) {
        SubsequenceConcat(c[1..], s[1..], d, t);
        assert (c + d)[1..] == c[1..] + d;
      } else {
        SubsequenceConcat(c, s[1..], d, t);
      }
    }
  }

  lemma {:induction false} SubsequenceItself<T>(s: seq<T>)
    ensures IsSubsequence(s, s)
  {
    if s != [] {
      SubsequenceItself(s[1..]);
    }
  }

  lemma {:induction false} ElementIsSubsequence<T>(x: T, s: seq<T>)
    requires x in s
    ensures IsSubsequence([x], s)
  {
    if s[0] != x {
      ElementIsSubsequence(x, s[1..]);
    }
  }

  /** Sequences without a shared element have nothing in common. */
  lemma {:induction false} DisjointLcs<T>(a: seq<T>, b: seq<T>, i: nat, j: nat)
    requires i <= |a| && j <= |b| && forall x :: x in a ==> x !in b
    ensures LcsFrom(a, b, i, j) == 0
    decreases |a| - i + |b| - j
  {
    if i < |a| && j < |b| {
      assert a[i] in a && b[j] in b;
      DisjointLcs(a, b, i + 1, j);
      DisjointLcs(a, b, i, j + 1);
    }
  }
}
