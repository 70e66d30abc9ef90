/** Conversations, their size, and complete tool rounds (internal/engine/compact.go,
    internal/engine/compact_rounds.go). A string is a sequence of bytes. */
module Transcript {

  datatype Call = Call(id: string, name: string, arguments: string)

  datatype Message = Message(role: string, content: string, reasoning: string, calls: seq<Call>, callId: string)

  // ---- Size ----

  const CHARS_PER_TOKEN := 4

  function CallChars(calls: seq<Call>, n: nat): nat
    requires n <= |calls|
  {
    if n == 0 then 0 else CallChars(calls, n - 1) + |calls[n-1].name| + |calls[n-1].arguments|
  }

  function MessageChars(m: Message): nat {
    |m.content| + |m.reasoning| + CallChars(m.calls, |m.calls|)
  }

  function CharsTo(ms: seq<Message>, n: nat): nat
    requires n <= |ms|
  {
    if n == 0 then 0 else CharsTo(ms, n - 1) + MessageChars(ms[n-1])
  }

  function Chars(ms: seq<Message>): nat { CharsTo(ms, |ms|) }

  function Estimate(ms: seq<Message>): nat { Chars(ms) / CHARS_PER_TOKEN }

  /** Everything of a message that counts, as one text. */
  function CallsText(calls: seq<Call>, n: nat): string
    requires n <= |calls|
  {
    if n == 0 then "" else CallsText(calls, n - 1) + calls[n-1].name + calls[n-1].arguments
  }

  function TextTo(ms: seq<Message>, n: nat): string
    requires n <= |ms|
  {
    if n == 0 then ""
    else TextTo(ms, n - 1) + ms[n-1].content + ms[n-1].reasoning + CallsText(ms[n-1].calls, |ms[n-1].calls|)
  }

  lemma {:induction false} CallCharsOfText(calls: seq<Call>, n: nat)
    requires n <= |calls|
    ensures CallChars(calls, n) == |CallsText(calls, n)|
  {
    if n > 0 { CallCharsOfText(calls, n - 1); }
  }

  /** The characters of a transcript are those of its contents, reasoning, and calls with their names and arguments. */
  lemma {:induction false} CharsOfText(ms: seq<Message>, n: nat)
    requires n <= |ms|
    ensures CharsTo(ms, n) == |TextTo(ms, n)|
  {
    if n > 0 {
      CharsOfText(ms, n - 1);
      CallCharsOfText(ms[n-1].calls, |ms[n-1].calls|);
    }
  }

  method EstimateTokens(ms: seq<Message>) returns (tokens: nat)
    ensures tokens == Estimate(ms)
  {
    var characters := 0;
    for i := 0 to |ms|
      invariant characters == CharsTo(ms, i)
    {
      characters := characters + |ms[i].content| + |ms[i].reasoning|;
      for k := 0 to |ms[i].calls|
        invariant characters == CharsTo(ms, i) + |ms[i].content| + |ms[i].reasoning| + CallChars(ms[i].calls, k)
      {
        characters := characters + |ms[i].calls[k].name| + |ms[i].calls[k].arguments|;
      }
    }
    tokens := characters / CHARS_PER_TOKEN;
  }

  lemma {:induction false} CharsOfPrefix(a: seq<Message>, b: seq<Message>, n: nat)
    requires n <= |a|
    ensures CharsTo(a + b, n) == CharsTo(a, n)
  {
    if n > 0 { CharsOfPrefix(a, b, n - 1); }
  }

  lemma {:induction false} CharsConcatTo(a: seq<Message>, b: seq<Message>, n: nat)
    requires n <= |b|
    ensures CharsTo(a + b, |a| + n) == Chars(a) + CharsTo(b, n)
  {
    if n == 0 {
      CharsOfPrefix(a, b, |a|);
    } else {
      CharsConcatTo(a, b, n - 1);
      assert (a + b)[|a|+n-1] == b[n-1];
    }
  }

  lemma CharsConcat(a: seq<Message>, b: seq<Message>)
    ensures Chars(a + b) == Chars(a) + Chars(b)
  {
    CharsConcatTo(a, b, |b|);
  }

  // ---- Complete rounds ----

  function ToolRunEnd(ms: seq<Message>, i: nat): (end: nat)
    requires i <= |ms|
    ensures i <= end <= |ms| && (forall k :: i <= k < end ==> ms[k].role == "tool")
    ensures end < |ms| ==> ms[end].role != "tool"
    decreases |ms| - i
  {
    if i < |ms| && ms[i].role == "tool" then ToolRunEnd(ms, i + 1) else i
  }

  /** Every id is a call's, no id twice. */
  ghost predicate DistinctIds(calls: seq<Call>, n: nat)
    requires n <= |calls|
  {
    && (forall k :: 0 <= k < n ==> calls[k].id != "")
    && (forall j, k :: 0 <= j < k < n ==> calls[j].id != calls[k].id)
  }

  ghost predicate Calls(calls: seq<Call>, n: nat, id: string)
    requires n <= |calls|
  {
    exists k :: 0 <= k < n && calls[k].id == id
  }

  ghost predicate Answers(ms: seq<Message>, from: nat, end: nat, id: string)
    requires from <= end <= |ms|
  {
    exists k :: from <= k < end && ms[k].callId == id
  }

  /** The answers in [from, end) are to different calls. */
  ghost predicate DistinctAnswers(ms: seq<Message>, from: nat, end: nat)
    requires from <= end <= |ms|
  {
    forall j, k :: from <= j < k < end ==> ms[j].callId != ms[k].callId
  }

  /** An assistant message whose calls, all distinct, are each answered exactly once by the tool messages right after
      it, and by no others. */
  ghost predicate IsRound(ms: seq<Message>, start: nat)
    requires start < |ms|
  {
    var calls, end := ms[start].calls, ToolRunEnd(ms, start + 1);
    && ms[start].role == "assistant" && calls != []
    && DistinctIds(calls, |calls|) && DistinctAnswers(ms, start + 1, end)
    && forall id: string :: Calls(calls, |calls|, id) <==> Answers(ms, start + 1, end, id)
  }

  ghost function RoundEnd(ms: seq<Message>, start: nat): (end: nat)
    requires start < |ms|
    ensures start <= end <= |ms|
  {
    if IsRound(ms, start) then ToolRunEnd(ms, start + 1) else start
  }

  /** The scan of the code accepts exactly the rounds. */
  method CompleteToolRound(ms: seq<Message>, start: nat) returns (end: nat)
    requires start < |ms|
    ensures end == RoundEnd(ms, start)
  {
    hide IsRound;
    var calls := ms[start].calls;
    NoRound(ms, start);
    if ms[start].role != "assistant" || |calls| == 0 { return start; }
    var pending: set<string> := {};
    for k := 0 to |calls|
      invariant DistinctIds(calls, k)
      invariant forall id :: id in pending <==> Calls(calls, k, id)
    {
      if calls[k].id == "" || calls[k].id in pending {
        BadCallId(calls, k);
        return start;
      }
      pending := pending + {calls[k].id};
    }
    end := start + 1;
    while end < |ms| && ms[end].role == "tool"
      invariant start + 1 <= end <= |ms| && ToolRunEnd(ms, end) == ToolRunEnd(ms, start + 1)
      invariant DistinctAnswers(ms, start + 1, end)
      invariant forall id :: id in pending <==> Calls(calls, |calls|, id) && !Answers(ms, start + 1, end, id)
      invariant forall id :: Answers(ms, start + 1, end, id) ==> Calls(calls, |calls|, id)
    {
      if ms[end].callId !in pending {
        BadAnswer(ms, start, end);
        return start;
      }
      pending := pending - {ms[end].callId};
      end := end + 1;
    }
    if pending != {} {
      var id :| id in pending;
      Unanswered(ms, start, end, id);
      return start;
    }
    WholeRound(ms, start, end);
  }

  lemma NoRound(ms: seq<Message>, start: nat)
    requires start < |ms|
    ensures IsRound(ms, start) ==> ms[start].role == "assistant" && ms[start].calls != []
    ensures IsRound(ms, start) ==> DistinctIds(ms[start].calls, |ms[start].calls|)
  {
  }

  lemma WholeRound(ms: seq<Message>, start: nat, end: nat)
    requires start < |ms| && ms[start].role == "assistant" && ms[start].calls != [] && ToolRunEnd(ms, start + 1) == end
    requires DistinctIds(ms[start].calls, |ms[start].calls|) && DistinctAnswers(ms, start + 1, end)
    requires forall id: string :: Calls(ms[start].calls, |ms[start].calls|, id) <==> Answers(ms, start + 1, end, id)
    ensures IsRound(ms, start)
  {
  }

  lemma BadCallId(calls: seq<Call>, k: nat)
    requires k < |calls| && (calls[k].id == "" || Calls(calls, k, calls[k].id))
    ensures !DistinctIds(calls, |calls|)
  {
  }

  /** An answer to no call, or to one already answered, spoils the round. */
  lemma BadAnswer(ms: seq<Message>, start: nat, at: nat)
    requires start < at < |ms| && ms[at].role == "tool" && ToolRunEnd(ms, at) == ToolRunEnd(ms, start + 1)
    requires var calls := ms[start].calls;
             !Calls(calls, |calls|, ms[at].callId) || Answers(ms, start + 1, at, ms[at].callId)
    ensures !IsRound(ms, start)
  {
    var calls, end, id := ms[start].calls, ToolRunEnd(ms, start + 1), ms[at].callId;
    assert at < end;
    assert Answers(ms, start + 1, end, id);
    if Answers(ms, start + 1, at, id) {
      var k :| start + 1 <= k < at && ms[k].callId == id;
      assert ms[k].callId == ms[at].callId;
    }
  }

  lemma Unanswered(ms: seq<Message>, start: nat, end: nat, id: string)
    requires start < end <= |ms| && ToolRunEnd(ms, start + 1) == end
    requires Calls(ms[start].calls, |ms[start].calls|, id) && !Answers(ms, start + 1, end, id)
    ensures !IsRound(ms, start)
  {
  }

  // ---- A round is a local matter ----

  /** What follows the first message that is no tool's does not matter. */
  lemma {:induction false} RunIsLocal(a: seq<Message>, b: seq<Message>, i: nat, cut: nat)
    requires i <= cut <= |a| && cut <= |b| && a[..cut] == b[..cut]
    requires (cut < |a| ==> a[cut].role != "tool") && (cut < |b| ==> b[cut].role != "tool")
    ensures ToolRunEnd(a, i) == ToolRunEnd(b, i) <= cut
    decreases cut - i
  {
    if i < cut {
      assert a[i] == a[..cut][i] == b[..cut][i] == b[i];
      RunIsLocal(a, b, i + 1, cut);
    }
  }

  lemma RoundIsLocal(a: seq<Message>, b: seq<Message>, i: nat, cut: nat)
    requires i < cut <= |a| && cut <= |b| && a[..cut] == b[..cut]
    requires (cut < |a| ==> a[cut].role != "tool") && (cut < |b| ==> b[cut].role != "tool")
    ensures RoundEnd(a, i) == RoundEnd(b, i) <= cut
  {
    RunIsLocal(a, b, i + 1, cut);
    assert forall k :: 0 <= k < cut ==> a[k] == a[..cut][k] == b[k];
    SameRound(a, b, i, i);
  }

  /** Rounds that look alike, wherever they stand, are alike. */
  lemma SameRound(a: seq<Message>, b: seq<Message>, i: nat, j: nat)
    requires i < |a| && j < |b| && ToolRunEnd(b, j + 1) - j == ToolRunEnd(a, i + 1) - i
    requires forall k :: i <= k < ToolRunEnd(a, i + 1) ==> SameShape(a[k], b[j + k - i])
    ensures IsRound(a, i) <==> IsRound(b, j)
  {
    var x, y := ToolRunEnd(a, i + 1), ToolRunEnd(b, j + 1);
    assert SameShape(a[i], b[j + i - i]);
    SameCalls(a[i].calls, b[j].calls);
    forall k | i + 1 <= k < x ensures SameShape(a[k], b[(j + 1) + k - (i + 1)]) {
      assert SameShape(a[k], b[j + k - i]);
    }
    SameAnswers(a, b, i + 1, j + 1, x, y);
    DistinctMoves(a, b, i, j, x, y);
  }

  lemma SameAnswers(a: seq<Message>, b: seq<Message>, i: nat, j: nat, x: nat, y: nat)
    requires i <= x <= |a| && j <= y <= |b| && y - j == x - i
    requires forall k :: i <= k < x ==> SameShape(a[k], b[j + k - i])
    ensures forall id: string :: Answers(a, i, x, id) <==> Answers(b, j, y, id)
  {
    forall id: string ensures Answers(a, i, x, id) <==> Answers(b, j, y, id) {
      if Answers(a, i, x, id) {
        var k :| i <= k < x && a[k].callId == id;
        assert b[j + k - i].callId == id;
      }
      if Answers(b, j, y, id) {
        var m :| j <= m < y && b[m].callId == id;
        assert SameShape(a[i + m - j], b[j + (i + m - j) - i]);
      }
    }
  }

  lemma DistinctMoves(a: seq<Message>, b: seq<Message>, i: nat, j: nat, x: nat, y: nat)
    requires i < x <= |a| && j < y <= |b| && y - j == x - i
    requires forall k :: i <= k < x ==> SameShape(a[k], b[j + k - i])
    ensures DistinctAnswers(a, i + 1, x) <==> DistinctAnswers(b, j + 1, y)
  {
    forall m | j <= m < y ensures b[m].callId == a[i + m - j].callId {
      assert SameShape(a[i + m - j], b[j + (i + m - j) - i]);
    }
    forall k | i <= k < x ensures a[k].callId == b[j + k - i].callId {
      assert SameShape(a[k], b[j + k - i]);
    }
    if DistinctAnswers(a, i + 1, x) {
      forall p, q | j + 1 <= p < q < y ensures b[p].callId != b[q].callId {
        assert a[i + p - j].callId != a[i + q - j].callId;
      }
    }
    if DistinctAnswers(b, j + 1, y) {
      forall p, q | i + 1 <= p < q < x ensures a[p].callId != a[q].callId {
        assert b[j + p - i].callId != b[j + q - i].callId;
      }
    }
  }

  /** Everything about a message that pairing looks at. */
  predicate SameShape(m: Message, n: Message) {
    m.role == n.role && m.callId == n.callId && |m.calls| == |n.calls| && forall k :: 0 <= k < |m.calls| ==>
        m.calls[k].id == n.calls[k].id
  }

  lemma SameCalls(c: seq<Call>, d: seq<Call>)
    requires |c| == |d| && forall k :: 0 <= k < |c| ==> c[k].id == d[k].id
    ensures DistinctIds(c, |c|) <==> DistinctIds(d, |d|)
    ensures forall id: string :: Calls(c, |c|, id) <==> Calls(d, |d|, id)
  {
    forall id: string ensures Calls(c, |c|, id) <==> Calls(d, |d|, id) {
      if Calls(c, |c|, id) {
        var k :| 0 <= k < |c| && c[k].id == id;
        assert d[k].id == id;
      }
      if Calls(d, |d|, id) {
        var k :| 0 <= k < |d| && d[k].id == id;
        assert c[k].id == id;
      }
    }
  }

  /** A suffix moved elsewhere keeps its rounds. */
  lemma {:induction false} RunMoves(a: seq<Message>, b: seq<Message>, i: nat, j: nat)
    requires i <= |a| && j <= |b| && |b| - j == |a| - i
    requires forall k :: i <= k < |a| ==> SameShape(a[k], b[j + k - i])
    ensures ToolRunEnd(b, j) - j == ToolRunEnd(a, i) - i
    decreases |a| - i
  {
    if i < |a| {
      assert SameShape(a[i], b[j + i - i]);
      if a[i].role == "tool" {
        forall k | i + 1 <= k < |a| ensures SameShape(a[k], b[(j + 1) + k - (i + 1)]) {
          assert SameShape(a[k], b[j + k - i]);
        }
        RunMoves(a, b, i + 1, j + 1);
      }
    }
  }

  lemma RoundMoves(a: seq<Message>, b: seq<Message>, i: nat, j: nat)
    requires i < |a| && j < |b| && |b| - j == |a| - i
    requires forall k :: i <= k < |a| ==> SameShape(a[k], b[j + k - i])
    ensures RoundEnd(b, j) - j == RoundEnd(a, i) - i
  {
    forall k | i + 1 <= k < |a| ensures SameShape(a[k], b[(j + 1) + k - (i + 1)]) {
      assert SameShape(a[k], b[j + k - i]);
    }
    RunMoves(a, b, i + 1, j + 1);
    SameRound(a, b, i, j);
  }
}
