/** What a provider demands of a transcript: every call answered, every answer called for; and the messages of one
    role. */
module Pairing {
  import opened Transcript
  import opened Items

  // ---- Pairing ----

  /** Every message with calls opens a complete round. */
  ghost predicate Answered(ms: seq<Message>) {
    forall i :: 0 <= i < |ms| && ms[i].calls != [] ==> RoundEnd(ms, i) > i
  }

  ghost predicate InRound(ms: seq<Message>, i: nat) {
    exists s :: 0 <= s < i && s < |ms| && i < RoundEnd(ms, s)
  }

  /** Every tool message belongs to a complete round. */
  ghost predicate Owned(ms: seq<Message>) {
    forall i :: 0 <= i < |ms| && ms[i].role == "tool" ==> InRound(ms, i)
  }

  // ---- Pairing in terms of items ----

  predicate Callless(ms: seq<Message>) {
    forall i :: 0 <= i < |ms| ==> ms[i].calls == []
  }

  predicate QuietItem(item: Item) {
    match item case Plain(m) => m.calls == [] case Round(_, answers) => Callless(answers)
  }

  predicate Quiet(items: seq<Item>) {
    forall k :: 0 <= k < |items| ==> QuietItem(items[k])
  }

  predicate Toolless(items: seq<Item>) {
    forall k :: 0 <= k < |items| && items[k].Plain? ==> items[k].message.role != "tool"
  }

  /** A message of an item: its opening one, or one of a round's answers. */
  lemma MessageOfItem(items: seq<Item>, ms: seq<Message>, i: nat) returns (k: nat)
    requires Parses(items, ms) && i < |ms|
    ensures k < |items| && Off(items, k) <= i < Off(items, k + 1) <= |ms|
    ensures items[k].Plain? ==> i == Off(items, k) && ms[i] == items[k].message
    ensures items[k].Round? ==> ms[Off(items, k)] == items[k].open && RoundEnd(ms, Off(items, k)) == Off(items, k + 1)
    ensures items[k].Round? && i > Off(items, k) ==>
      i - Off(items, k) - 1 < |items[k].answers| && ms[i] == items[k].answers[i - Off(items, k) - 1]
  {
    hide RoundEnd, FlatTo;
    k := Locate(items, |items|, i);
    ItemAt(items, k);
    assert ParsedAt(items, ms, k);
    var lo := Off(items, k);
    assert ms[lo..Off(items, k + 1)][i - lo] == ms[i] && ms[lo..Off(items, k + 1)][0] == ms[lo];
  }

  lemma AnsweredItems(items: seq<Item>, ms: seq<Message>)
    requires Parses(items, ms)
    ensures Answered(ms) <==> Quiet(items)
  {
    hide RoundEnd, FlatTo, Messages;
    if Quiet(items) {
      forall i | 0 <= i < |ms| && ms[i].calls != [] ensures RoundEnd(ms, i) > i {
        var k := MessageOfItem(items, ms, i);
        assert QuietItem(items[k]);
      }
    }
    if Answered(ms) {
      forall k | 0 <= k < |items| ensures QuietItem(items[k]) { AnsweredItem(items, ms, k); }
    }
  }

  lemma AnsweredItem(items: seq<Item>, ms: seq<Message>, k: nat)
    requires Parses(items, ms) && Answered(ms) && k < |items|
    ensures QuietItem(items[k])
  {
    hide RoundEnd, FlatTo;
    var lo, hi := Off(items, k), Off(items, k + 1);
    ItemAt(items, k);
    assert ParsedAt(items, ms, k);
    assert ms[lo..hi][0] == ms[lo];
    if items[k].Round? {
      forall j | 0 <= j < |items[k].answers| ensures items[k].answers[j].calls == [] {
        assert ms[lo..hi][j+1] == ms[lo+j+1];
        InsideIsTool(items, ms, k, lo + j + 1);
      }
    }
  }

  lemma OwnedItems(items: seq<Item>, ms: seq<Message>)
    requires Parses(items, ms)
    ensures Owned(ms) <==> Toolless(items)
  {
    hide RoundEnd, FlatTo, Messages;
    if Toolless(items) {
      forall i | 0 <= i < |ms| && ms[i].role == "tool" ensures InRound(ms, i) { ToolInRound(items, ms, i); }
    }
    if Owned(ms) {
      forall k | 0 <= k < |items| && items[k].Plain?
          ensures items[k].message.role != "tool" { PlainIsNoTool(items, ms, k); }
    }
  }

  lemma ToolInRound(items: seq<Item>, ms: seq<Message>, i: nat)
    requires Parses(items, ms) && Toolless(items) && i < |ms| && ms[i].role == "tool"
    ensures InRound(ms, i)
  {
    hide RoundEnd, FlatTo, Messages;
    var k := MessageOfItem(items, ms, i);
    if items[k].Round? { RoundOpens(items, ms, k); }
  }

  lemma PlainIsNoTool(items: seq<Item>, ms: seq<Message>, k: nat)
    requires Parses(items, ms) && Owned(ms) && k < |items| && items[k].Plain?
    ensures items[k].message.role != "tool"
  {
    hide RoundEnd, FlatTo;
    var i := Off(items, k);
    ItemAt(items, k);
    assert ParsedAt(items, ms, k);
    assert ms[i] == ms[i..Off(items, k + 1)][0];
    if items[k].message.role == "tool" {
      assert InRound(ms, i);
      var s :| 0 <= s < i && i < RoundEnd(ms, s);
      var r := RoundIsItem(items, ms, s);
      if r < k { FlatGrows(items, r + 1, k); } else { FlatGrows(items, k, r); }
    }
  }

  // ---- Joining transcripts ----

  lemma {:induction false} FlatConcat(a: seq<Item>, b: seq<Item>, n: nat)
    requires n <= |b|
    ensures FlatTo(a + b, |a| + n) == Flat(a) + FlatTo(b, n)
  {
    hide Messages;
    if n == 0 { FlatPrefix(a, b, |a|); } else {
      FlatConcat(a, b, n - 1);
      assert (a + b)[|a|+n-1] == b[n-1];
    }
  }

  /** A transcript that does not start with a tool's answer can follow any other. */
  predicate Startable(ms: seq<Message>) { ms == [] || ms[0].role != "tool" }

  lemma ConcatParses(a: seq<Item>, x: seq<Message>, b: seq<Item>, y: seq<Message>)
    requires Parses(a, x) && Parses(b, y) && Startable(y)
    ensures Parses(a + b, x + y)
  {
    hide RoundEnd, FlatTo, Messages;
    FlatConcat(a, b, |b|);
    forall k | 0 <= k < |a + b| ensures ParsedAt(a + b, x + y, k) {
      if k < |a| { ParsedInFirst(a, x, b, y, k); } else { ParsedInSecond(a, x, b, y, k - |a|); }
    }
  }

  lemma ParsedInFirst(a: seq<Item>, x: seq<Message>, b: seq<Item>, y: seq<Message>, k: nat)
    requires Parses(a, x) && Startable(y) && k < |a|
    ensures ParsedAt(a + b, x + y, k)
  {
    hide RoundEnd, FlatTo, Messages;
    FlatPrefix(a, b, k);
    FlatPrefix(a, b, k + 1);
    assert ParsedAt(a, x, k);
    assert (x + y)[..|x|] == x == x[..|x|];
    RoundIsLocal(x, x + y, Off(a, k), |x|);
  }

  lemma ParsedInSecond(a: seq<Item>, x: seq<Message>, b: seq<Item>, y: seq<Message>, k: nat)
    requires Parses(a, x) && Parses(b, y) && k < |b|
    ensures ParsedAt(a + b, x + y, |a| + k)
  {
    hide RoundEnd, FlatTo, Messages;
    FlatConcat(a, b, k);
    FlatConcat(a, b, k + 1);
    assert ParsedAt(b, y, k);
    var off := Off(b, k);
    forall m | off <= m < |y| ensures SameShape(y[m], (x + y)[(|x| + off) + m - off]) { }
    RoundMoves(y, x + y, off, |x| + off);
  }

  /** Pairing of a whole is pairing of its parts, when the cut is not before an answer. */
  lemma PairingConcat(x: seq<Message>, y: seq<Message>)
    requires Startable(y)
    ensures Answered(x + y) <==> Answered(x) && Answered(y)
    ensures Owned(x + y) <==> Owned(x) && Owned(y)
  {
    hide Parses, Answered, Owned, QuietItem;
    var a := ParseAll(x);
    var b := ParseAll(y);
    ConcatParses(a, x, b, y);
    AnsweredItems(a, x);
    AnsweredItems(b, y);
    AnsweredItems(a + b, x + y);
    OwnedItems(a, x);
    OwnedItems(b, y);
    OwnedItems(a + b, x + y);
    JoinedQuiet(a, b);
  }

  lemma JoinedQuiet(a: seq<Item>, b: seq<Item>)
    ensures Quiet(a + b) <==> Quiet(a) && Quiet(b)
    ensures Toolless(a + b) <==> Toolless(a) && Toolless(b)
  {
    hide QuietItem;
    forall k | 0 <= k < |b| ensures b[k] == (a + b)[|a| + k] { }
    forall k | 0 <= k < |a| ensures a[k] == (a + b)[k] { }
  }

  /** Pairing looks at the shape of messages alone. */
  lemma PairingOfShape(x: seq<Message>, y: seq<Message>)
    requires |x| == |y| && forall k :: 0 <= k < |x| ==> SameShape(x[k], y[k])
    ensures (Answered(x) <==> Answered(y)) && (Owned(x) <==> Owned(y))
  {
    hide RoundEnd;
    forall i | 0 <= i < |x| ensures RoundEnd(x, i) == RoundEnd(y, i) {
      forall k | i <= k < |x| ensures SameShape(x[k], y[i + k - i]) { }
      RoundMoves(x, y, i, i);
    }
  }

  /** Nothing to pair. */
  lemma NothingToPair(ms: seq<Message>)
    requires Callless(ms)
    ensures Answered(ms) && ((forall m <- ms :: m.role != "tool") ==> Owned(ms))
  {
  }

  /** Plain items without calls read as themselves. */
  lemma PlainParses(items: seq<Item>)
    requires Quiet(items) && forall k :: 0 <= k < |items| ==> items[k].Plain?
    ensures Parses(items, Flat(items))
  {
    hide FlatTo;
    forall k | 0 <= k < |items| ensures ParsedAt(items, Flat(items), k) {
      ItemAt(items, k);
      assert QuietItem(items[k]);
      assert Flat(items)[Off(items, k)] == Flat(items)[Off(items, k)..Off(items, k + 1)][0];
    }
  }

  // ---- The messages of one role, in order ----

  function OfRoleTo(ms: seq<Message>, n: nat, role: string): seq<Message>
    requires n <= |ms|
  {
    if n == 0 then [] else OfRoleTo(ms, n - 1, role) + if ms[n-1].role == role then [ms[n-1]] else []
  }

  function OfRole(ms: seq<Message>, role: string): seq<Message> { OfRoleTo(ms, |ms|, role) }

  lemma {:induction false} OfRolePrefix(a: seq<Message>, b: seq<Message>, n: nat, role: string)
    requires n <= |a|
    ensures OfRoleTo(a + b, n, role) == OfRoleTo(a, n, role)
  {
    if n > 0 { OfRolePrefix(a, b, n - 1, role); }
  }

  lemma {:induction false} OfRoleConcatTo(a: seq<Message>, b: seq<Message>, n: nat, role: string)
    requires n <= |b|
    ensures OfRoleTo(a + b, |a| + n, role) == OfRole(a, role) + OfRoleTo(b, n, role)
  {
    if n == 0 { OfRolePrefix(a, b, |a|, role); } else {
      OfRoleConcatTo(a, b, n - 1, role);
      assert (a + b)[|a|+n-1] == b[n-1];
    }
  }

  lemma OfRoleConcat(a: seq<Message>, b: seq<Message>, role: string)
    ensures OfRole(a + b, role) == OfRole(a, role) + OfRole(b, role)
  {
    OfRoleConcatTo(a, b, |b|, role);
  }

  lemma {:induction false} NoneOfRole(ms: seq<Message>, n: nat, role: string)
    requires n <= |ms| && forall m <- ms :: m.role != role
    ensures OfRoleTo(ms, n, role) == []
  {
    if n > 0 { NoneOfRole(ms, n - 1, role); }
  }

  lemma {:induction false} OfRoleSame(x: seq<Message>, y: seq<Message>, n: nat, role: string)
    requires n <= |x| == |y|
    requires forall k :: 0 <= k < |x| ==> x[k].role == y[k].role && (x[k].role == role ==> x[k] == y[k])
    ensures OfRoleTo(x, n, role) == OfRoleTo(y, n, role)
  {
    if n > 0 { OfRoleSame(x, y, n - 1, role); }
  }

  /** Rewriting items one by one, none of them in the messages of a role, keeps the messages of that role. */
  lemma {:induction false} OfRoleItems(items: seq<Item>, others: seq<Item>, n: nat, role: string)
    requires n <= |items| == |others|
    requires forall k :: 0 <= k < |items| ==> OfRole(Messages(items[k]), role) == OfRole(Messages(others[k]), role)
    ensures OfRole(FlatTo(items, n), role) == OfRole(FlatTo(others, n), role)
  {
    hide Messages, OfRoleTo;
    if n > 0 {
      OfRoleItems(items, others, n - 1, role);
      OfRoleConcat(FlatTo(items, n - 1), Messages(items[n-1]), role);
      OfRoleConcat(FlatTo(others, n - 1), Messages(others[n-1]), role);
    }
  }

  /** A round holds an assistant's and tools' messages only. */
  predicate RolesOfRound(item: Item) {
    item.Round? ==> item.open.role == "assistant" && forall a <- item.answers :: a.role == "tool"
  }

  lemma RoundHasNone(item: Item, role: string)
    requires item.Round? && RolesOfRound(item) && role != "assistant" && role != "tool"
    ensures OfRole(Messages(item), role) == []
  {
    NoneOfRole(Messages(item), |Messages(item)|, role);
  }
}
