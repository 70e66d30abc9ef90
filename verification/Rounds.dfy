/** Shrinking the complete tool rounds of a transcript (internal/engine/compact_rounds.go). */
module Rounds {
  import opened Transcript
  import opened Items
  import opened Evidence

  // ---- The two ways a round gets smaller ----

  function Shortened(m: Message): Message {
    m.(content := Excerpt(m.content, 1024))
  }

  function AllShortened(ms: seq<Message>): (r: seq<Message>)
    ensures |r| == |ms| && forall k :: 0 <= k < |ms| ==> r[k] == Shortened(ms[k])
  {
    seq(|ms|, k requires 0 <= k < |ms| => Shortened(ms[k]))
  }

  /** How many of the first n messages an excerpt makes shorter. */
  function Shrunk(ms: seq<Message>, n: nat): nat
    requires n <= |ms|
  {
    if n == 0 then 0 else Shrunk(ms, n - 1) + if |Excerpt(ms[n-1].content, 1024)| < |ms[n-1].content| then 1 else 0
  }

  /** A round with each tool output cut to an excerpt of at most 1024 bytes. */
  function Excerpted(item: Item): Item
    requires item.Round?
  {
    Round(item.open, AllShortened(item.answers))
  }

  function AnswerText(answers: seq<Message>, id: string, n: nat): string
    requires n <= |answers|
  {
    if n == 0 then ""
    else AnswerText(answers, id, n - 1) +
         if answers[n-1].callId == id then "\nResult: " + Excerpt(answers[n-1].content, 512) else ""
  }

  function CallText(calls: seq<Call>, answers: seq<Message>, n: nat): string
    requires n <= |calls|
  {
    if n == 0 then ""
    else CallText(calls, answers, n - 1) + ("\n" + calls[n-1].name + " " + Excerpt(calls[n-1].arguments, 384)) +
         AnswerText(answers, calls[n-1].id, |answers|)
  }

  function DigestHeader(): string {
    "\n[completed tool round; full details retained in session history]"
  }

  /** One assistant message naming what ran, with excerpts of arguments and results. */
  function Digest(item: Item): Message
    requires item.Round?
  {
    Message("assistant",
        item.open.content + DigestHeader() + CallText(item.open.calls, item.answers, |item.open.calls|), "", [], "")
  }

  method ToolRoundDigest(ms: seq<Message>, start: nat, end: nat) returns (digest: Message)
    requires start < end <= |ms|
    ensures digest == Digest(Round(ms[start], ms[start+1..end]))
  {
    hide Excerpt, DigestHeader;
    var answers := ms[start+1..end];
    var text := ms[start].content + DigestHeader();
    for c := 0 to |ms[start].calls|
      invariant text == ms[start].content + DigestHeader() + CallText(ms[start].calls, answers, c)
    {
      var call := ms[start].calls[c];
      var more := "\n" + call.name + " " + Excerpt(call.arguments, 384);
      for a := 0 to |answers|
        invariant more == "\n" + call.name + " " + Excerpt(call.arguments, 384) + AnswerText(answers, call.id, a)
      {
        if answers[a].callId == call.id { more := more + ("\nResult: " + Excerpt(answers[a].content, 512)); }
      }
      text := text + more;
    }
    digest := Message("assistant", text, "", [], "");
  }

  /** For each call, which of the answers is its; every answer is some call's. */
  ghost predicate Matched(calls: seq<Call>, answers: seq<Message>, which: seq<nat>) {
    && |which| == |calls|
    && (forall k :: 0 <= k < |calls| ==> which[k] < |answers| && answers[which[k]].callId == calls[k].id)
    && (forall j :: 0 <= j < |answers| ==> j in which)
  }

  /** The first n calls, each with its one result. */
  ghost function Told(calls: seq<Call>, answers: seq<Message>, which: seq<nat>, n: nat): string
    requires Matched(calls, answers, which) && n <= |calls|
  {
    if n == 0 then ""
    else Told(calls, answers, which, n - 1) + ("\n" + calls[n-1].name + " " + Excerpt(calls[n-1].arguments, 384)) +
         ("\nResult: " + Excerpt(answers[which[n-1]].content, 512))
  }

  /** The digest of a complete round tells every call with the one answer that is its own. */
  lemma DigestTells(ms: seq<Message>, start: nat) returns (which: seq<nat>)
    requires start < |ms| && IsRound(ms, start)
    ensures var calls, answers := ms[start].calls, ms[start+1..RoundEnd(ms, start)];
            && Matched(calls, answers, which)
            && Digest(Round(ms[start], answers)).content ==
               ms[start].content + DigestHeader() + Told(calls, answers, which, |calls|)
  {
    hide DigestHeader, IsRound, Excerpt;
    var calls, answers := ms[start].calls, ms[start+1..RoundEnd(ms, start)];
    RoundMatches(ms, start);
    which :| Matched(calls, answers, which);
    AllTold(calls, answers, which, |calls|);
  }

  lemma RoundMatches(ms: seq<Message>, start: nat)
    requires start < |ms| && IsRound(ms, start)
    ensures var calls, answers := ms[start].calls, ms[start+1..RoundEnd(ms, start)];
            && (forall i, j :: 0 <= i < j < |answers| ==> answers[i].callId != answers[j].callId)
            && exists which :: Matched(calls, answers, which)
  {
    var calls, end := ms[start].calls, RoundEnd(ms, start);
    var answers := ms[start+1..end];
    assert forall j :: 0 <= j < |answers| ==> answers[j] == ms[start+1+j];
    forall k | 0 <= k < |calls| ensures exists j: nat :: j < |answers| && answers[j].callId == calls[k].id {
      assert Calls(calls, |calls|, calls[k].id);
      var m :| start + 1 <= m < end && ms[m].callId == calls[k].id;
      assert answers[m-start-1] == ms[m];
    }
    var which := seq(|calls|, k requires 0 <= k < |calls| => AnswerTo(answers, calls[k].id));
    forall j | 0 <= j < |answers| ensures j in which {
      assert answers[j] == ms[start+1+j] && Answers(ms, start + 1, end, answers[j].callId);
      assert Calls(calls, |calls|, answers[j].callId);
      var k :| 0 <= k < |calls| && calls[k].id == answers[j].callId;
      assert which[k] == j;
    }
    assert Matched(calls, answers, which);
  }

  ghost function AnswerTo(answers: seq<Message>, id: string): (j: nat)
    ensures (exists i: nat :: i < |answers| && answers[i].callId == id) ==>
      j < |answers| && answers[j].callId == id
  {
    if i: nat :| i < |answers| && answers[i].callId == id then i else 0
  }

  lemma {:induction false} AllTold(calls: seq<Call>, answers: seq<Message>, which: seq<nat>, n: nat)
    requires Matched(calls, answers, which) && n <= |calls|
    requires forall i, j :: 0 <= i < j < |answers| ==> answers[i].callId != answers[j].callId
    ensures CallText(calls, answers, n) == Told(calls, answers, which, n)
  {
    hide Excerpt;
    if n > 0 {
      AllTold(calls, answers, which, n - 1);
      OneAnswerTold(answers, which[n-1], |answers|);
    }
  }

  lemma {:induction false} OneAnswerTold(answers: seq<Message>, j: nat, n: nat)
    requires j < |answers| && n <= |answers|
    requires forall i, k :: 0 <= i < k < |answers| ==> answers[i].callId != answers[k].callId
    ensures AnswerText(answers, answers[j].callId, n) ==
            if j < n then "\nResult: " + Excerpt(answers[j].content, 512) else ""
  {
    hide Excerpt;
    if n > 0 { OneAnswerTold(answers, j, n - 1); }
  }

  /** Excerpt every tool output of the round in [start, end), in place. */
  method ExcerptRound(ms: seq<Message>, start: nat, end: nat) returns (working: seq<Message>, replaced: nat)
    requires start < end <= |ms|
    ensures working == ms[..start+1] + AllShortened(ms[start+1..end]) + ms[end..]
    ensures replaced == Shrunk(ms[start+1..end], end - start - 1)
  {
    hide Excerpt, AllShortened;
    ghost var answers := ms[start+1..end];
    working, replaced := ms, 0;
    for j := start + 1 to end
      invariant |working| == |ms| && forall k :: 0 <= k < |ms| ==>
        working[k] == if start < k < j then Shortened(ms[k]) else ms[k]
      invariant replaced == Shrunk(answers, j - start - 1)
    {
      var shorter := ShortenEvidence(working[j].content, 1024);
      ExcerptFits(working[j].content, 1024);
      if |shorter| < |working[j].content| {
        working, replaced := working[j := working[j].(content := shorter)], replaced + 1;
      } else {
        NotShorter(ms[j]);
      }
    }
    PointwiseShortened(ms, start, end, working);
  }

  lemma PointwiseShortened(ms: seq<Message>, start: nat, end: nat, working: seq<Message>)
    requires start < end <= |ms| == |working|
    requires forall k :: 0 <= k < |ms| ==> working[k] == if start < k < end then Shortened(ms[k]) else ms[k]
    ensures working == ms[..start+1] + AllShortened(ms[start+1..end]) + ms[end..]
  {
    hide Shortened;
  }

  lemma NotShorter(m: Message)
    requires |Excerpt(m.content, 1024)| >= |m.content|
    ensures Shortened(m) == m
  {
    ExcerptFits(m.content, 1024);
  }

  // ---- What both keep ----

  lemma {:induction false} ShortenedChars(ms: seq<Message>, n: nat)
    requires n <= |ms|
    ensures CharsTo(AllShortened(ms), n) + Shrunk(ms, n) <= CharsTo(ms, n)
  {
    hide Excerpt;
    if n > 0 {
      ShortenedChars(ms, n - 1);
      ExcerptFits(ms[n-1].content, 1024);
    }
  }

  /** Excerpting a round is a splice. */
  lemma ExcerptSplices(items: seq<Item>, ms: seq<Message>, k: nat)
    requires Parses(items, ms) && k < |items| && items[k].Round?
    ensures Off(items, k) < Off(items, k + 1) <= |ms|
    ensures var lo, hi := Off(items, k), Off(items, k + 1);
            Flat(items[k := Excerpted(items[k])]) == ms[..lo+1] + AllShortened(ms[lo+1..hi]) + ms[hi..]
  {
    hide FlatTo, Excerpt, RoundEnd, ParsedAt, Shortened, AllShortened;
    var item, lo, hi := Excerpted(items[k]), Off(items, k), Off(items, k + 1);
    ItemAt(items, k);
    Splice(items, ms, k, item);
    ExcerptInPlace(ms, lo, hi, items[k]);
  }

  lemma ExcerptInPlace(ms: seq<Message>, lo: nat, hi: nat, item: Item)
    requires lo < hi <= |ms| && item.Round? && ms[lo..hi] == Messages(item)
    ensures ms[..lo] + Messages(Excerpted(item)) + ms[hi..] == ms[..lo+1] + AllShortened(ms[lo+1..hi]) + ms[hi..]
  {
    hide AllShortened;
    assert ms[lo+1..hi] == ms[lo..hi][1..] == item.answers;
    var short := AllShortened(item.answers);
    assert ms[..lo+1] == ms[..lo] + [ms[lo..hi][0]];
    assert ms[..lo] + ([item.open] + short) == ms[..lo+1] + short;
  }

  /** It moves nothing. */
  lemma ExcerptMovesNothing(items: seq<Item>, k: nat)
    requires k < |items| && items[k].Round?
    ensures forall j :: 0 <= j <= |items| ==> Off(items[k := Excerpted(items[k])], j) == Off(items, j)
  {
    hide FlatTo, Excerpt;
    forall j | 0 <= j <= |items| ensures Off(items[k := Excerpted(items[k])], j) == Off(items, j) {
      OffsetsReplaced(items, k, Excerpted(items[k]), j);
    }
  }

  /** Excerpting a round keeps the reading of the transcript and never grows it. */
  lemma ExcerptParses(items: seq<Item>, ms: seq<Message>, k: nat)
    requires Parses(items, ms) && k < |items| && items[k].Round?
    ensures var items' := items[k := Excerpted(items[k])];
            Parses(items', Flat(items')) && Chars(Flat(items')) <= Chars(ms)
  {
    hide FlatTo, Excerpt, RoundEnd, ParsedAt, Messages, CharsTo;
    var items', lo, hi := items[k := Excerpted(items[k])], Off(items, k), Off(items, k + 1);
    ExcerptSplices(items, ms, k);
    ExcerptMovesNothing(items, k);
    SplicedShapes(ms, lo, hi);
    ReshapedParses(items, ms, items', Flat(items'));
    ShortenedSplice(ms, lo + 1, hi);
  }

  lemma SplicedShapes(ms: seq<Message>, lo: nat, hi: nat)
    requires lo < hi <= |ms|
    ensures var ms' := ms[..lo+1] + AllShortened(ms[lo+1..hi]) + ms[hi..];
            |ms'| == |ms| && forall x :: 0 <= x < |ms| ==> SameShape(ms[x], ms'[x])
  {
    hide Excerpt;
  }

  lemma ShortenedSplice(ms: seq<Message>, lo: nat, hi: nat)
    requires lo <= hi <= |ms|
    ensures Chars(ms[..lo] + AllShortened(ms[lo..hi]) + ms[hi..]) <= Chars(ms)
  {
    hide Excerpt, CharsTo;
    ShortenedChars(ms[lo..hi], hi - lo);
    CharsConcat(ms[..lo] + AllShortened(ms[lo..hi]), ms[hi..]);
    CharsConcat(ms[..lo], AllShortened(ms[lo..hi]));
    SplicedChars(ms, lo, hi);
  }

  lemma SplicedChars(ms: seq<Message>, lo: nat, hi: nat)
    requires lo <= hi <= |ms|
    ensures Chars(ms) == Chars(ms[..lo]) + Chars(ms[lo..hi]) + Chars(ms[hi..])
  {
    hide CharsTo;
    CharsConcat(ms[..lo], ms[lo..hi]);
    CharsConcat(ms[..lo] + ms[lo..hi], ms[hi..]);
    assert ms == ms[..lo] + ms[lo..hi] + ms[hi..];
  }

  /** A digest that is estimated smaller than its round makes the transcript smaller. */
  lemma CollapsedChars(ms: seq<Message>, lo: nat, hi: nat, digest: Message)
    requires lo <= hi <= |ms| && Estimate([digest]) < Estimate(ms[lo..hi])
    ensures Chars(ms[..lo] + [digest] + ms[hi..]) < Chars(ms)
  {
    hide CharsTo;
    CharsConcat(ms[..lo] + [digest], ms[hi..]);
    CharsConcat(ms[..lo], [digest]);
    SplicedChars(ms, lo, hi);
  }

  // ---- The whole pass over a transcript ----

  const STAGE_NONE := "none"
  const STAGE_TOOL_RESULTS := "tool results"

  datatype Compaction = Compaction(messages: seq<Message>, stage: string, replaced: nat, freed: int)

  /** What a compaction reports: the exact difference of the two estimates, and no stage when nothing was gained. */
  function Finish(head: seq<Message>, tail: seq<Message>, stage: string, replaced: nat, original: nat): Compaction {
    var messages := head + tail;
    if Estimate(messages) >= original then Compaction(messages, STAGE_NONE, 0, original - Estimate(messages))
    else Compaction(messages, stage, replaced, original - Estimate(messages))
  }

  /** The newest complete round, or -1. */
  ghost predicate IsNewest(items: seq<Item>, newest: int) {
    && -1 <= newest < |items| && (newest >= 0 ==> items[newest].Round?)
    && forall k :: newest < k < |items| ==> items[k].Plain?
  }

  /** A round excerpted, or replaced by its digest when that is estimated smaller. */
  ghost function Small(round: Item): Item
    requires round.Round?
  {
    if Digestible(round) then Plain(Digest(round)) else round
  }

  ghost predicate Digestible(round: Item)
    requires round.Round?
  {
    Estimate([Digest(round)]) < Estimate(Messages(round))
  }

  /** An item after that many sweeps: older rounds are excerpted by the first and digested by the second; only the third
      touches the newest round, and only excerpts it. A plain message is never touched. */
  ghost function Stage(item: Item, newest: bool, sweeps: nat): Item {
    if item.Plain? || sweeps == 0 then item
    else if newest then if sweeps < 3 then item else Excerpted(item)
    else if sweeps == 1 then Excerpted(item)
    else Small(Excerpted(item))
  }

  /** The transcript when sweep `pass` has dealt with its first n items. */
  ghost function Step(first: seq<Item>, newest: int, pass: nat, n: nat): (items: seq<Item>)
    requires n <= |first|
    ensures |items| == |first|
    ensures forall k :: 0 <= k < |first| ==> items[k] == Stage(first[k], k == newest, if k < n then pass + 1 else pass)
  {
    seq(|first|, k requires 0 <= k < |first| => Stage(first[k], k == newest, if k < n then pass + 1 else pass))
  }

  /** How many messages were rewritten to get there. */
  ghost function Cost(first: seq<Item>, newest: int, pass: nat, n: nat): nat
    requires n <= |first|
    decreases pass, n
  {
    if n > 0 then Cost(first, newest, pass, n - 1) + ItemCost(first[n-1], n - 1 == newest, pass)
    else if pass > 0 then Cost(first, newest, pass - 1, |first|)
    else 0
  }

  ghost function ItemCost(item: Item, newest: bool, pass: nat): nat {
    if item.Plain? || newest != (pass == 2) then 0
    else if pass == 1 then if Digestible(Excerpted(item)) then |Messages(item)| else 0
    else Shrunk(item.answers, |item.answers|)
  }

  /** The transcript before each of the first n items of sweep `pass` was too large. */
  ghost predicate TooLarge(first: seq<Item>, newest: int, pass: nat, n: nat, target: int)
    requires n <= |first|
  {
    forall m :: 0 <= m < n ==> Estimate(Flat(Step(first, newest, pass, m))) > target
  }

  /** The loop state: `working` is that transcript, and `latest` still points at the newest round. */
  ghost predicate Going(first: seq<Item>, newest: int, pass: nat, n: nat, working: seq<Message>, latest: int) {
    && n <= |first| && IsNewest(first, newest) && Parses(Step(first, newest, pass, n), working)
    && latest == if newest < 0 then -1 else Off(Step(first, newest, pass, n), newest)
  }

  /** Position i is at item n, or inside the item before it. */
  ghost predicate At(items: seq<Item>, n: nat, i: nat) {
    n <= |items| && i <= Off(items, n) && if n == 0 then i == 0 else Off(items, n - 1) < i
  }

  // ---- One step of a sweep ----

  lemma OffZero(items: seq<Item>)
    ensures Off(items, 0) == 0
  {
  }

  /** A message that opens no round to be rewritten is passed over. */
  lemma PassOver(first: seq<Item>, newest: int, pass: nat, n: nat, working: seq<Message>, latest: int, i: nat)
    returns (next: nat)
    requires pass < 3 && Going(first, newest, pass, n, working, latest) && At(Step(first, newest, pass, n), n, i)
      && i < |working|
    requires RoundEnd(working, i) == i || (pass < 2 && i == latest) || (pass == 2 && i != latest)
    ensures n <= next <= n + 1 && next <= |first| && Step(first, newest, pass, next) == Step(first, newest, pass, n)
    ensures At(Step(first, newest, pass, next), next, i + 1)
    ensures Cost(first, newest, pass, next) == Cost(first, newest, pass, n)
  {
    hide RoundEnd, FlatTo, Messages, Small, Shrunk, Digestible, Parses;
    var items := Step(first, newest, pass, n);
    OffZero(items);
    if i < Off(items, n) { return n; }
    next := n + 1;
    ItemHere(items, working, n, i);
    Unmoved(first, newest, pass, n, working, latest, i);
    assert Step(first, newest, pass, n + 1) == items;
  }

  lemma ItemHere(items: seq<Item>, ms: seq<Message>, n: nat, i: nat)
    requires Parses(items, ms) && n <= |items| && i == Off(items, n) && i < |ms|
    ensures n < |items| && Off(items, n) < Off(items, n + 1) <= |ms|
    ensures RoundEnd(ms, i) == i <==> items[n].Plain?
    ensures items[n].Round? ==>
      RoundEnd(ms, i) == Off(items, n + 1) && Round(ms[i], ms[i+1..Off(items, n + 1)]) == items[n]
    ensures ms[i..Off(items, n + 1)] == Messages(items[n])
  {
    hide RoundEnd, FlatTo;
    ItemAt(items, n);
    assert ParsedAt(items, ms, n);
    assert ms[i+1..Off(items, n + 1)] == ms[i..Off(items, n + 1)][1..] && ms[i] == ms[i..Off(items, n + 1)][0];
  }

  lemma Unmoved(first: seq<Item>, newest: int, pass: nat, n: nat, working: seq<Message>, latest: int, i: nat)
    requires pass < 3 && Going(first, newest, pass, n, working, latest)
    requires i == Off(Step(first, newest, pass, n), n) && i < |working|
    requires RoundEnd(working, i) == i || (pass < 2 && i == latest) || (pass == 2 && i != latest)
    ensures n < |first| && Stage(first[n], n == newest, pass + 1) == Stage(first[n], n == newest, pass)
    ensures ItemCost(first[n], n == newest, pass) == 0
  {
    hide RoundEnd, FlatTo, Messages, Shrunk, Digestible, Parses;
    var items := Step(first, newest, pass, n);
    ItemHere(items, working, n, i);
    AtNewest(items, newest, n);
  }

  lemma AtNewest(items: seq<Item>, newest: int, n: nat)
    requires n < |items| && -1 <= newest < |items|
    ensures newest >= 0 ==> (Off(items, newest) == Off(items, n) <==> n == newest)
    ensures newest > n ==> Off(items, n + 1) <= Off(items, newest)
  {
    hide Messages, FlatTo;
    if newest >= 0 {
      if n < newest {
        FlatGrows(items, n, newest);
        FlatGrows(items, n + 1, newest);
      } else {
        FlatGrows(items, newest, n);
      }
    }
  }

  method NewestRound(working: seq<Message>, ghost first: seq<Item>) returns (latest: int, ghost newest: int)
    requires Parses(first, working)
    ensures -1 <= latest < |working| && (latest >= 0 ==> RoundEnd(working, latest) > latest)
    ensures forall i :: 0 <= i < |working| && latest < i ==> RoundEnd(working, i) == i
    ensures IsNewest(first, newest) && latest == if newest < 0 then -1 else Off(first, newest)
  {
    hide RoundEnd, FlatTo;
    latest, newest := -1, -1;
    for i := 0 to |working|
      invariant -1 <= latest < i && (latest >= 0 ==> RoundEnd(working, latest) > latest)
      invariant forall k :: 0 <= k < i && latest < k ==> RoundEnd(working, k) == k
      invariant -1 <= newest < |first| && (newest >= 0 ==> first[newest].Round?)
      invariant latest == if newest < 0 then -1 else Off(first, newest)
      invariant forall k :: 0 <= k < |first| && newest < k && first[k].Round? ==> Off(first, k) >= i
    {
      var end := CompleteToolRound(working, i);
      if end > i {
        ghost var k := RoundIsItem(first, working, i);
        NewestSoFar(first, working, k);
        latest, newest := i, k;
      } else {
        NotARound(first, working, i);
      }
    }
    NoRoundPastEnd(first, working, newest);
  }

  lemma NewestSoFar(items: seq<Item>, ms: seq<Message>, k: nat)
    requires Parses(items, ms) && k < |items|
    ensures forall j :: k < j < |items| ==> Off(items, j) >= Off(items, k) + 1
  {
    forall j | k < j < |items| ensures Off(items, j) >= Off(items, k) + 1 { FlatGrows(items, k, j); }
  }

  lemma NotARound(items: seq<Item>, ms: seq<Message>, i: nat)
    requires Parses(items, ms) && i < |ms| && RoundEnd(ms, i) == i
    ensures forall k :: 0 <= k < |items| && items[k].Round? ==> Off(items, k) != i
  {
    hide RoundEnd, FlatTo;
    forall k | 0 <= k < |items| && items[k].Round? ensures Off(items, k) != i {
      assert ParsedAt(items, ms, k);
      ItemAt(items, k);
    }
  }

  lemma NoRoundPastEnd(items: seq<Item>, ms: seq<Message>, newest: int)
    requires Parses(items, ms) && forall k :: 0 <= k < |items| && newest < k && items[k].Round? ==>
      Off(items, k) >= |ms|
    ensures forall k :: 0 <= k < |items| && newest < k ==> items[k].Plain?
  {
    hide RoundEnd, FlatTo;
    forall k | 0 <= k < |items| ensures Off(items, k) < |ms| { assert ParsedAt(items, ms, k); }
  }

  /** The item at a round to be excerpted, and the reading with it excerpted. */
  lemma ExcerptedHere(first: seq<Item>, newest: int, pass: nat, n: nat, working: seq<Message>, latest: int, i: nat)
    requires (pass == 0 || pass == 2) && Going(first, newest, pass, n, working, latest)
    requires i == Off(Step(first, newest, pass, n), n) && i < |working|
    requires RoundEnd(working, i) > i && (pass == 0 <==> i != latest)
    ensures n < |first| && first[n].Round? && (n == newest) == (pass == 2)
    ensures var items := Step(first, newest, pass, n);
            && items[n] == first[n] && i < RoundEnd(working, i) == Off(items, n + 1) <= |working|
            && first[n].answers == working[i+1..RoundEnd(working, i)]
            && Step(first, newest, pass, n + 1) == items[n := Excerpted(items[n])]
  {
    hide RoundEnd, FlatTo, Messages, Shrunk, Digestible, Parses, AllShortened;
    var items := Step(first, newest, pass, n);
    ItemHere(items, working, n, i);
    AtNewest(items, newest, n);
    assert Step(first, newest, pass, n + 1) == items[n := Excerpted(items[n])];
  }

  lemma ExcerptStep(first: seq<Item>, newest: int, pass: nat, n: nat, working: seq<Message>, latest: int, i: nat)
    requires (pass == 0 || pass == 2) && Going(first, newest, pass, n, working, latest)
    requires i == Off(Step(first, newest, pass, n), n) && i < |working|
    requires RoundEnd(working, i) > i && (pass == 0 <==> i != latest)
    ensures var end := RoundEnd(working, i);
            && n < |first| && i < end <= |working|
            && var working' := working[..i+1] + AllShortened(working[i+1..end]) + working[end..];
            && Going(first, newest, pass, n + 1, working', latest) && Chars(working') <= Chars(working)
            && At(Step(first, newest, pass, n + 1), n + 1, end)
            && Cost(first, newest, pass, n + 1) == Cost(first, newest, pass, n) + Shrunk(working[i+1..end], end - i - 1)
  {
    hide RoundEnd, FlatTo, Messages, Shrunk, Digestible, Parses, AllShortened, CharsTo, Step, Excerpted;
    var items := Step(first, newest, pass, n);
    ExcerptedHere(first, newest, pass, n, working, latest, i);
    ExcerptSplices(items, working, n);
    ExcerptMovesNothing(items, n);
    ExcerptParses(items, working, n);
  }

  lemma DigestStep(first: seq<Item>, newest: int, n: nat, working: seq<Message>, latest: int, i: nat, round: Item)
    requires Going(first, newest, 1, n, working, latest)
    requires i == Off(Step(first, newest, 1, n), n) && i < |working| && RoundEnd(working, i) > i != latest
    requires round == Round(working[i], working[i+1..RoundEnd(working, i)]) && Digestible(round)
    ensures n < |first|
    ensures var end := RoundEnd(working, i); var working' := working[..i] + [Digest(round)] + working[end..];
            && Going(first, newest, 1, n + 1, working', latest - (end - i - 1)) && Chars(working') <= Chars(working)
            && At(Step(first, newest, 1, n + 1), n + 1, i + 1)
            && Cost(first, newest, 1, n + 1) == Cost(first, newest, 1, n) + (end - i)
  {
    hide RoundEnd, FlatTo, Shrunk, Parses, AllShortened, CharsTo, Digest, Messages;
    var items, end, digest := Step(first, newest, 1, n), RoundEnd(working, i), Digest(round);
    ItemHere(items, working, n, i);
    AtNewest(items, newest, n);
    DigestIsInert(round);
    CollapseParses(items, working, n, digest);
    CollapsedChars(working, i, end, digest);
    assert Step(first, newest, 1, n + 1) == items[n := Plain(digest)];
    OffsetsReplaced(items, n, Plain(digest), n);
    OffsetsReplaced(items, n, Plain(digest), n + 1);
    OffsetsReplaced(items, n, Plain(digest), newest);
    ItemAt(items, n);
    PlainMessages(digest);
    SameLength(first[n]);
  }

  lemma SameLength(round: Item)
    requires round.Round?
    ensures |Messages(round)| == |Messages(Excerpted(round))| == |round.answers| + 1
  {
  }

  lemma KeepStep(first: seq<Item>, newest: int, n: nat, working: seq<Message>, latest: int, i: nat, round: Item)
    requires Going(first, newest, 1, n, working, latest)
    requires i == Off(Step(first, newest, 1, n), n) && i < |working| && RoundEnd(working, i) > i != latest
    requires round == Round(working[i], working[i+1..RoundEnd(working, i)]) && !Digestible(round)
    ensures n < |first| && Going(first, newest, 1, n + 1, working, latest)
    ensures At(Step(first, newest, 1, n + 1), n + 1, RoundEnd(working, i))
    ensures Cost(first, newest, 1, n + 1) == Cost(first, newest, 1, n)
  {
    hide RoundEnd, FlatTo, Shrunk, Parses, AllShortened, CharsTo, Digest, Messages;
    var items := Step(first, newest, 1, n);
    ItemHere(items, working, n, i);
    AtNewest(items, newest, n);
    assert Step(first, newest, 1, n + 1) == items;
  }

  lemma DigestIsInert(round: Item)
    requires round.Round?
    ensures Inert(Digest(round))
  {
  }

  lemma AtRound(first: seq<Item>, newest: int, pass: nat, n: nat, working: seq<Message>, latest: int, i: nat)
    requires Going(first, newest, pass, n, working, latest) && At(Step(first, newest, pass, n), n, i) && i < |working|
    requires RoundEnd(working, i) > i
    ensures i == Off(Step(first, newest, pass, n), n)
  {
    hide RoundEnd, FlatTo, Messages, Parses, Stage;
    var items := Step(first, newest, pass, n);
    OffZero(items);
    if i < Off(items, n) { InsideIsTool(items, working, n - 1, i); }
  }

  lemma SweptAll(first: seq<Item>, newest: int, pass: nat, n: nat, working: seq<Message>, latest: int, i: nat)
    requires Going(first, newest, pass, n, working, latest) && At(Step(first, newest, pass, n), n, i) && i >= |working|
    ensures n == |first|
  {
    hide RoundEnd, FlatTo, Messages, Stage;
    FlatGrows(Step(first, newest, pass, n), n, |first|);
  }

  lemma OneMoreTooLarge(first: seq<Item>, newest: int, pass: nat, n: nat, working: seq<Message>, latest: int,
    target: int)
    requires Going(first, newest, pass, n, working, latest) && TooLarge(first, newest, pass, n, target)
    requires Estimate(working) > target
    ensures n < |first| ==> TooLarge(first, newest, pass, n + 1, target)
  {
    hide RoundEnd, FlatTo, Messages, Stage, CharsTo, ParsedAt;
  }

  lemma RoundMessages(ms: seq<Message>, i: nat, end: nat)
    requires i < end <= |ms|
    ensures Messages(Round(ms[i], ms[i+1..end])) == ms[i..end]
  {
  }

  // ---- The sweeps ----

  /** One sweep, up to the first transcript that fits the target. */
  method Sweep(pass: nat, before: seq<Message>, target: int, given: int, count: nat, ghost first: seq<Item>,
    ghost newest: int)
    returns (working: seq<Message>, latest: int, replaced: nat, ghost n: nat)
    requires pass < 3 && Going(first, newest, pass, 0, before, given) && count == Cost(first, newest, pass, 0)
    ensures Going(first, newest, pass, n, working, latest) && replaced == Cost(first, newest, pass, n)
    ensures TooLarge(first, newest, pass, n, target) && (Estimate(working) <= target || n == |first|)
    ensures Chars(working) <= Chars(before)
  {
    hide RoundEnd, FlatTo, Messages, Digest, Cost, CharsTo, Parses, Step, AllShortened, Shrunk;
    working, latest, replaced, n := before, given, count, 0;
    var i: nat := 0;
    OffZero(Step(first, newest, pass, 0));
    while i < |working|
      invariant Going(first, newest, pass, n, working, latest) && At(Step(first, newest, pass, n), n, i)
      invariant TooLarge(first, newest, pass, n, target)
      invariant replaced == Cost(first, newest, pass, n) && Chars(working) <= Chars(before)
      decreases |working| - i
    {
      var tokens := EstimateTokens(working);
      if tokens <= target { return; }
      OneMoreTooLarge(first, newest, pass, n, working, latest, target);
      var end := CompleteToolRound(working, i);
      if end == i || (pass < 2 && i == latest) || (pass == 2 && i != latest) {
        n := PassOver(first, newest, pass, n, working, latest, i);
        i := i + 1;
        continue;
      }
      AtRound(first, newest, pass, n, working, latest, i);
      if pass == 1 {
        ghost var round := Round(working[i], working[i+1..end]);
        RoundMessages(working, i, end);
        var digest := ToolRoundDigest(working, i, end);
        var small := EstimateTokens([digest]);
        var large := EstimateTokens(working[i..end]);
        if small < large {
          DigestStep(first, newest, n, working, latest, i, round);
          n := n + 1;
          working := working[..i] + [digest] + working[end..];
          latest := latest - (end - i - 1);
          replaced := replaced + (end - i);
          i := i + 1;
          continue;
        }
        KeepStep(first, newest, n, working, latest, i, round);
      } else {
        ExcerptStep(first, newest, pass, n, working, latest, i);
        var excerpted: nat;
        working, excerpted := ExcerptRound(working, i, end);
        replaced := replaced + excerpted;
      }
      n := n + 1;
      i := end;
    }
    SweptAll(first, newest, pass, n, working, latest, i);
  }

  /** The transcript left after `pass` whole sweeps and n items of the next is the first one that fits the target, or
      the last one there is. */
  ghost predicate FirstThatFits(first: seq<Item>, newest: int, pass: nat, n: nat, target: int)
    requires n <= |first|
  {
    && TooLarge(first, newest, pass, n, target)
    && (forall p :: 0 <= p < pass ==> TooLarge(first, newest, p, |first|, target))
    && (Estimate(Flat(Step(first, newest, pass, n))) <= target || (pass == 2 && n == |first|))
  }

  /** Where sweeping a transcript ends, and what is reported of it. */
  ghost predicate SweptTo(ms: seq<Message>, target: int, result: Compaction, newest: int, pass: nat, n: nat) {
    var first := ItemsOf(ms);
    && pass < 3 && n <= |first| && IsNewest(first, newest) && FirstThatFits(first, newest, pass, n, target)
    && var items := Step(first, newest, pass, n);
    && Parses(items, Flat(items))
    && result == Finish(Flat(items), [], STAGE_TOOL_RESULTS, Cost(first, newest, pass, n), Estimate(ms))
  }

  ghost predicate Compacted(ms: seq<Message>, target: int, result: Compaction) {
    exists newest: int, pass: nat, n: nat :: SweptTo(ms, target, result, newest, pass, n)
  }

  /** Sweep until the transcript fits: the result is the first of all the intermediate transcripts that does. */
  method CompactToolRounds(messages: seq<Message>, target: int)
    returns (result: Compaction, ghost newest: int, ghost pass: nat, ghost n: nat)
    ensures SweptTo(messages, target, result, newest, pass, n) && result.freed >= 0
  {
    hide RoundEnd, FlatTo, Messages, Digest, Cost, CharsTo, Parses, Step, AllShortened, Shrunk, TooLarge;
    var original := EstimateTokens(messages);
    ghost var first := ItemsOf(messages);
    var latest: int;
    latest, newest := NewestRound(messages, first);
    FirstStep(first, newest, messages);
    var working, replaced, sweep := messages, 0, 0;
    pass, n := 0, 0;
    var tokens := original;
    while sweep < 3 && tokens > target
      invariant sweep <= 3 && tokens == Estimate(working) && Chars(working) <= Chars(messages)
      invariant pass < 3 && Going(first, newest, pass, n, working, latest) && replaced == Cost(first, newest, pass, n)
      invariant TooLarge(first, newest, pass, n, target)
      invariant forall p :: 0 <= p < pass ==> TooLarge(first, newest, p, |first|, target)
      invariant if sweep == 0 then pass == 0 && n == 0 else pass == sweep - 1 && (tokens <= target || n == |first|)
    {
      if sweep > 0 { NextSweep(first, newest, pass, working, latest, target); }
      pass := sweep;
      working, latest, replaced, n := Sweep(sweep, working, target, latest, replaced, first, newest);
      tokens := EstimateTokens(working);
      sweep := sweep + 1;
    }
    result := Finish(working, [], STAGE_TOOL_RESULTS, replaced, original);
    Landed(first, newest, pass, n, working, latest);
  }

  lemma FirstStep(first: seq<Item>, newest: int, ms: seq<Message>)
    requires IsNewest(first, newest) && Parses(first, ms)
    ensures Step(first, newest, 0, 0) == first && Cost(first, newest, 0, 0) == 0
    ensures forall target :: TooLarge(first, newest, 0, 0, target)
  {
    hide ParsedAt, FlatTo;
  }

  lemma NextSweep(first: seq<Item>, newest: int, pass: nat, working: seq<Message>, latest: int, target: int)
    requires Going(first, newest, pass, |first|, working, latest)
    ensures Going(first, newest, pass + 1, 0, working, latest)
    ensures Cost(first, newest, pass + 1, 0) == Cost(first, newest, pass, |first|)
  {
    hide Parses, FlatTo, Stage, ItemCost;
    assert Step(first, newest, pass + 1, 0) == Step(first, newest, pass, |first|);
  }

  lemma Landed(first: seq<Item>, newest: int, pass: nat, n: nat, working: seq<Message>, latest: int)
    requires Going(first, newest, pass, n, working, latest)
    ensures working == Flat(Step(first, newest, pass, n)) && working + [] == working
    ensures Parses(Step(first, newest, pass, n), Flat(Step(first, newest, pass, n)))
  {
    hide ParsedAt, FlatTo, Stage;
  }

  // ---- What sweeping gives up, and in which order ----

  /** How many of the first n messages differ. */
  function Differing(a: seq<Message>, b: seq<Message>, n: nat): nat
    requires n <= |a| == |b|
  {
    if n == 0 then 0 else Differing(a, b, n - 1) + if a[n-1] != b[n-1] then 1 else 0
  }

  /** What became of an item costs: the outputs that were excerpted, and all of a round that is now one message. */
  ghost function Rewritten(item: Item, now: Item): nat {
    if item.Plain? then 0
    else if now.Plain? then Differing(item.answers, AllShortened(item.answers), |item.answers|) + 1 + |item.answers|
    else if |now.answers| == |item.answers| then Differing(item.answers, now.answers, |item.answers|)
    else 0
  }

  ghost function RewrittenTo(first: seq<Item>, items: seq<Item>, k: nat): nat
    requires k <= |first| == |items|
  {
    if k == 0 then 0 else RewrittenTo(first, items, k - 1) + Rewritten(first[k-1], items[k-1])
  }

  /** The running count of the sweeps depends on nothing but the transcript before and the one after them. */
  lemma {:induction false} CountIsExact(first: seq<Item>, newest: int, pass: nat, n: nat)
    requires pass < 3 && n <= |first|
    ensures Cost(first, newest, pass, n) == RewrittenTo(first, Step(first, newest, pass, n), |first|)
    decreases pass, n
  {
    hide ItemCost, Rewritten, Stage;
    if n > 0 {
      CountIsExact(first, newest, pass, n - 1);
      var items, before := Step(first, newest, pass, n), Step(first, newest, pass, n - 1);
      assert items == before[n-1 := items[n-1]];
      OneRewritten(first, before, items[n-1], n - 1, |first|);
      StageCost(first[n-1], n - 1 == newest, pass);
    } else if pass > 0 {
      CountIsExact(first, newest, pass - 1, |first|);
      assert Step(first, newest, pass, 0) == Step(first, newest, pass - 1, |first|);
    } else {
      assert Step(first, newest, 0, 0) == first by { Unswept(first, newest); }
      NoneRewritten(first, |first|);
    }
  }

  lemma Unswept(first: seq<Item>, newest: int)
    ensures Step(first, newest, 0, 0) == first
  {
  }

  lemma {:induction false} OneRewritten(first: seq<Item>, items: seq<Item>, now: Item, i: nat, k: nat)
    requires i < |first| == |items| && k <= |first|
    ensures RewrittenTo(first, items[i := now], k) == RewrittenTo(first, items, k) +
      if i < k then Rewritten(first[i], now) - Rewritten(first[i], items[i]) else 0
  {
    hide Rewritten;
    if k > 0 { OneRewritten(first, items, now, i, k - 1); }
  }

  lemma {:induction false} NoneRewritten(first: seq<Item>, k: nat)
    requires k <= |first|
    ensures RewrittenTo(first, first, k) == 0
  {
    if k > 0 {
      NoneRewritten(first, k - 1);
      if first[k-1].Round? { NothingDiffers(first[k-1].answers, |first[k-1].answers|); }
    }
  }

  lemma {:induction false} NothingDiffers(ms: seq<Message>, n: nat)
    requires n <= |ms|
    ensures Differing(ms, ms, n) == 0
  {
    if n > 0 { NothingDiffers(ms, n - 1); }
  }

  lemma {:induction false} ShrunkDiffers(ms: seq<Message>, n: nat)
    requires n <= |ms|
    ensures Differing(ms, AllShortened(ms), n) == Shrunk(ms, n)
  {
    hide Excerpt;
    if n > 0 {
      ShrunkDiffers(ms, n - 1);
      if |Excerpt(ms[n-1].content, 1024)| >= |ms[n-1].content| { NotShorter(ms[n-1]); }
    }
  }

  lemma StageCost(item: Item, newest: bool, pass: nat)
    requires pass < 3
    ensures Rewritten(item, Stage(item, newest, pass + 1)) ==
      Rewritten(item, Stage(item, newest, pass)) + ItemCost(item, newest, pass)
  {
    hide Digestible, Differing, AllShortened, Shrunk, Digest;
    if item.Round? {
      NothingDiffers(item.answers, |item.answers|);
      ShrunkDiffers(item.answers, |item.answers|);
      SameLength(item);
    }
  }

  /** There is nothing left to shrink: every output of a complete round is within its excerpt, and every complete round
      but the newest is estimated no larger than its digest. */
  ghost predicate Exhausted(ms: seq<Message>) {
    forall i :: 0 <= i < |ms| && RoundEnd(ms, i) > i ==>
      && (forall j :: i < j < RoundEnd(ms, i) ==> |ms[j].content| <= 1024)
      && (LaterRound(ms, i) ==>
            Estimate([Digest(Round(ms[i], ms[i+1..RoundEnd(ms, i)]))]) >= Estimate(ms[i..RoundEnd(ms, i)]))
  }

  ghost predicate LaterRound(ms: seq<Message>, i: nat) {
    exists k: nat :: i < k < |ms| && RoundEnd(ms, k) > k
  }

  /** A result that is still too large is one where nothing is left to shrink. */
  lemma TooLargeIsExhausted(ms: seq<Message>, target: int, result: Compaction)
    requires Compacted(ms, target, result) && Estimate(result.messages) > target
    ensures Exhausted(result.messages)
  {
    hide CharsTo, FlatTo, Step, Cost, IsNewest, ParsedAt, Digest, RoundEnd, Parses;
    var newest: int, pass: nat, n: nat :| SweptTo(ms, target, result, newest, pass, n);
    var first := ItemsOf(ms);
    var items, after := Step(first, newest, pass, n), result.messages;
    assert Flat(items) + [] == Flat(items);
    forall i | 0 <= i < |after| && RoundEnd(after, i) > i
      ensures forall j :: i < j < RoundEnd(after, i) ==> |after[j].content| <= 1024
      ensures LaterRound(after, i) ==>
        Estimate([Digest(Round(after[i], after[i+1..RoundEnd(after, i)]))]) >= Estimate(after[i..RoundEnd(after, i)])
    {
      RoundExhausted(first, newest, after, i);
    }
  }

  lemma RoundExhausted(first: seq<Item>, newest: int, after: seq<Message>, i: nat)
    requires IsNewest(first, newest) && Parses(Step(first, newest, 2, |first|), after)
    requires i < |after| && RoundEnd(after, i) > i
    ensures forall j :: i < j < RoundEnd(after, i) ==> |after[j].content| <= 1024
    ensures LaterRound(after, i) ==>
      Estimate([Digest(Round(after[i], after[i+1..RoundEnd(after, i)]))]) >= Estimate(after[i..RoundEnd(after, i)])
  {
    hide CharsTo, FlatTo, ParsedAt, Digest, RoundEnd, Parses, Excerpt, Messages;
    var items, end := Step(first, newest, 2, |first|), RoundEnd(after, i);
    var k := RoundIsItem(items, after, i);
    ItemHere(items, after, k, i);
    assert items[k] == Round(after[i], after[i+1..end]);
    StageExhausted(first[k], k == newest);
    forall j | i < j < end ensures |after[j].content| <= 1024 {
      assert after[i+1..end][j-i-1] == after[j];
    }
    if LaterRound(after, i) {
      var m: nat :| i < m < |after| && RoundEnd(after, m) > m;
      var l := RoundIsItem(items, after, m);
      if l <= k { FlatGrows(items, l, k); }
      assert items[l].Round? && first[l].Round?;
    }
  }

  lemma StageExhausted(item: Item, newest: bool)
    requires Stage(item, newest, 3).Round?
    ensures var now := Stage(item, newest, 3);
            && item.Round? && (forall a <- now.answers :: |a.content| <= 1024)
            && (!newest ==> Estimate([Digest(now)]) >= Estimate(Messages(now)))
  {
    hide CharsTo, Excerpt, Digest, Messages;
    forall a: Message ensures |Shortened(a).content| <= 1024 { ExcerptFits(a.content, 1024); }
  }

  /** The newest round is changed, to excerpts of its outputs, only after everything older was shrunk and the transcript
      still did not fit; and when even the result does not fit, it has been. */
  lemma NewestGoesLast(ms: seq<Message>, target: int, result: Compaction, newest: int, pass: nat, n: nat)
    requires SweptTo(ms, target, result, newest, pass, n) && newest >= 0
    ensures var first := ItemsOf(ms); var after := Step(first, newest, pass, n)[newest];
            && (after == first[newest] || after == Excerpted(first[newest]))
            && (Estimate(Flat(Step(first, newest, 1, |first|))) <= target ==> after == first[newest])
            && (Estimate(result.messages) > target ==> after == Excerpted(first[newest]))
  {
    hide FlatTo, CharsTo, Excerpted, Parses, Cost;
    var first := ItemsOf(ms);
    var items := Step(first, newest, pass, n);
    assert Flat(items) + [] == Flat(items);
    if pass == 2 && n > newest {
      assert TooLarge(first, newest, 2, n, target);
      assert Step(first, newest, 2, 0) == Step(first, newest, 1, |first|);
      assert Estimate(Flat(Step(first, newest, 2, 0))) > target;
    }
  }

  /** A message outside complete rounds is still there as it was, and those before it still come before it. */
  lemma OutsideRoundsStays(first: seq<Item>, newest: int, pass: nat, n: nat, k: nat)
    requires n <= |first| && k < |first| && first[k].Plain?
    ensures var items := Step(first, newest, pass, n);
            && Off(items, k) < |Flat(items)| && Flat(items)[Off(items, k)] == first[k].message
            && forall j :: 0 <= j < k ==> Off(items, j) < Off(items, k)
  {
    hide FlatTo;
    var items := Step(first, newest, pass, n);
    ItemAt(items, k);
    assert Flat(items)[Off(items, k)] == Flat(items)[Off(items, k)..Off(items, k + 1)][0];
    forall j | 0 <= j < k ensures Off(items, j) < Off(items, k) { FlatGrows(items, j, k); }
  }

  /** While sweeping, a count of zero means that nothing was rewritten. */
  lemma {:induction false} NothingRewritten(first: seq<Item>, newest: int, pass: nat, n: nat)
    requires pass < 3 && n <= |first| && Cost(first, newest, pass, n) == 0
    ensures Step(first, newest, pass, n) == first
    decreases pass, n
  {
    hide ItemCost, Shrunk, AllShortened, Digestible;
    if n > 0 {
      NothingRewritten(first, newest, pass, n - 1);
      UntouchedItem(first, newest, pass, n);
    } else if pass > 0 {
      NothingRewritten(first, newest, pass - 1, |first|);
      assert Step(first, newest, pass, 0) == Step(first, newest, pass - 1, |first|);
    }
  }

  lemma UntouchedItem(first: seq<Item>, newest: int, pass: nat, n: nat)
    requires pass < 3 && 0 < n <= |first| && ItemCost(first[n-1], n - 1 == newest, pass) == 0
    requires Step(first, newest, pass, n - 1) == first
    ensures Step(first, newest, pass, n) == first
  {
    hide Stage, ItemCost;
    var item := first[n-1];
    assert Stage(item, n - 1 == newest, pass) == item;
    StillUntouched(item, n - 1 == newest, pass);
    assert Step(first, newest, pass, n) ==
        Step(first, newest, pass, n - 1)[n - 1 := Stage(item, n - 1 == newest, pass + 1)];
  }

  lemma StillUntouched(item: Item, newest: bool, pass: nat)
    requires pass < 3 && ItemCost(item, newest, pass) == 0 && Stage(item, newest, pass) == item
    ensures Stage(item, newest, pass + 1) == item
  {
    hide Shrunk, AllShortened, Digestible;
    if item.Round? && pass != 1 && newest == (pass == 2) { NoneShrunk(item.answers, |item.answers|); }
  }

  /** What is reported agrees with itself: tokens were freed, messages were rewritten, a stage was spent, or none of
      these. */
  lemma SweepsAreCounted(ms: seq<Message>, target: int, result: Compaction)
    requires Compacted(ms, target, result)
    ensures result.freed > 0 <==> result.replaced > 0
    ensures result.freed > 0 <==> result.stage != STAGE_NONE
  {
    hide CharsTo, FlatTo, Step, Cost, FirstThatFits, IsNewest;
    var newest: int, pass: nat, n: nat :| SweptTo(ms, target, result, newest, pass, n);
    var first := ItemsOf(ms);
    var items := Step(first, newest, pass, n);
    assert Flat(items) + [] == Flat(items);
    if Cost(first, newest, pass, n) == 0 { NothingRewritten(first, newest, pass, n); }
  }

  /** Sweeping changes a transcript exactly when it gets shorter. The change is reported as none exactly when the
      estimate, being rounded, does not notice it, and then fewer than four characters are gone. */
  lemma ChangesShrink(ms: seq<Message>, target: int, result: Compaction)
    requires Compacted(ms, target, result)
    ensures Chars(result.messages) <= Chars(ms)
    ensures result.messages != ms <==> Chars(result.messages) < Chars(ms)
    ensures result.replaced == 0 <==> Estimate(result.messages) == Estimate(ms)
    ensures result.replaced == 0 ==> Chars(ms) - Chars(result.messages) < CHARS_PER_TOKEN
  {
    hide SweptTo, CharsTo;
    var newest: int, pass: nat, n: nat :| SweptTo(ms, target, result, newest, pass, n);
    SweptShrinks(ms, target, result, newest, pass, n);
    SweepsAreCounted(ms, target, result);
    Rounding(Chars(result.messages), Chars(ms));
  }

  lemma SweptShrinks(ms: seq<Message>, target: int, result: Compaction, newest: int, pass: nat, n: nat)
    requires SweptTo(ms, target, result, newest, pass, n)
    ensures Chars(result.messages) <= Chars(ms)
    ensures result.messages != ms <==> Chars(result.messages) < Chars(ms)
    ensures result.freed == Estimate(ms) - Estimate(result.messages)
  {
    hide CharsTo, FlatTo, Step, Cost, FirstThatFits, IsNewest, ParsedAt, Estimate;
    var first := ItemsOf(ms);
    var items := Step(first, newest, pass, n);
    assert Flat(items) + [] == Flat(items);
    StepShrinks(first, newest, pass, n, |first|);
  }

  lemma Rounding(small: nat, large: nat)
    requires small <= large
    ensures small / CHARS_PER_TOKEN <= large / CHARS_PER_TOKEN
    ensures small / CHARS_PER_TOKEN == large / CHARS_PER_TOKEN ==> large - small < CHARS_PER_TOKEN
  {
  }

  lemma {:induction false} StepShrinks(first: seq<Item>, newest: int, pass: nat, n: nat, k: nat)
    requires n <= |first| && k <= |first|
    ensures var items := Step(first, newest, pass, n);
            && Chars(FlatTo(items, k)) <= Chars(FlatTo(first, k))
            && (Chars(FlatTo(items, k)) == Chars(FlatTo(first, k)) ==> FlatTo(items, k) == FlatTo(first, k))
  {
    hide CharsTo, Messages, Stage;
    var items := Step(first, newest, pass, n);
    if k > 0 {
      StepShrinks(first, newest, pass, n, k - 1);
      CharsConcat(FlatTo(items, k - 1), Messages(items[k-1]));
      CharsConcat(FlatTo(first, k - 1), Messages(first[k-1]));
      StageShrinks(first[k-1], k - 1 == newest, if k - 1 < n then pass + 1 else pass);
    }
  }

  lemma StageShrinks(item: Item, newest: bool, sweeps: nat)
    ensures var small := Stage(item, newest, sweeps);
            small == item || Chars(Messages(small)) < Chars(Messages(item))
  {
    hide Messages, AllShortened, Digest, CharsTo;
    if item.Round? {
      ExcerptedShrinks(item);
      PlainMessages(Digest(Excerpted(item)));
    }
  }

  lemma ExcerptedShrinks(round: Item)
    requires round.Round?
    ensures Excerpted(round) == round || Chars(Messages(Excerpted(round))) < Chars(Messages(round))
  {
    hide CharsTo, Shrunk, AllShortened;
    var short := AllShortened(round.answers);
    CharsConcat([round.open], round.answers);
    CharsConcat([round.open], short);
    ShortenedChars(round.answers, |round.answers|);
    if Shrunk(round.answers, |round.answers|) == 0 { NoneShrunk(round.answers, |round.answers|); }
  }

  /** One call, and an answer that is a byte too long. */
  function Listing(): (ms: seq<Message>)
    ensures |ms| == 2
  {
    [Message("assistant", "", "", [Call("c", "ls", "")], ""), Message("tool", seq(1025, k => 'a'), "", [], "c")]
  }

  /** Its answer becomes an excerpt of 1024 bytes and nothing is reported: the estimate is 256 before and after. */
  lemma UnnoticedExcerpt(target: int, result: Compaction)
    requires target < 256 && Compacted(Listing(), target, result)
    ensures result.messages == [Listing()[0], Shortened(Listing()[1])] != Listing() && result.replaced == 0
  {
    hide Listing, FlatTo, CharsTo, ItemsOf, Step, Excerpted, Messages, Shortened, Cost;
    var ms, short := Listing(), [Listing()[0], Shortened(Listing()[1])];
    ListingEstimates();
    var newest: int, pass: nat, n: nat :| SweptTo(ms, target, result, newest, pass, n);
    ListingItems(ItemsOf(ms));
    ListingSteps(ItemsOf(ms), newest, pass, n);
    assert short + [] == short;
  }

  lemma ListingEstimates()
    ensures |Listing()| == 2 && Estimate(Listing()) == Estimate([Listing()[0], Shortened(Listing()[1])]) == 256
    ensures Shortened(Listing()[1]) != Listing()[1]
  {
    hide Excerpt;
    var open, answer := Listing()[0], Listing()[1];
    OneLess(answer.content);
    PairChars(open, answer);
    PairChars(open, Shortened(answer));
    assert CallChars(open.calls, 1) == CallChars(open.calls, 0) + 2;
    assert Listing() == [open, answer];
  }

  /** The two messages are one round. */
  lemma ListingItems(items: seq<Item>)
    requires Parses(items, Listing())
    ensures items == [Round(Listing()[0], [Listing()[1]])]
  {
    hide FlatTo, Listing;
    var ms := Listing();
    ListingIsRound();
    var k := RoundIsItem(items, ms, 0);
    OffZero(items);
    FlatGrows(items, 0, k);
    FlatGrows(items, 1, |items|);
    assert k == 0 && |items| == 1;
    var round := items[0];
    assert ms[0..2] == [ms[0], ms[1]] == [round.open] + round.answers;
    assert [ms[0], ms[1]][1..] == ([round.open] + round.answers)[1..] == round.answers;
    assert [ms[0], ms[1]][0] == ([round.open] + round.answers)[0] == round.open;
  }

  lemma ListingIsRound()
    ensures RoundEnd(Listing(), 0) == 2
  {
    var ms := Listing();
    assert ToolRunEnd(ms, 1) == ToolRunEnd(ms, 2) == 2;
    assert ms[0].calls[0].id == "c" && ms[1].callId == "c";
  }

  lemma ListingSteps(first: seq<Item>, newest: int, pass: nat, n: nat)
    requires first == [Round(Listing()[0], [Listing()[1]])] && IsNewest(first, newest) && n <= 1 && pass < 3
    ensures Flat(Step(first, newest, pass, n)) ==
            if pass == 2 && n == 1 then [Listing()[0], Shortened(Listing()[1])] else Listing()
  {
    hide Shortened, Listing, Excerpted, Messages;
    var items := Step(first, newest, pass, n);
    assert first[0].Round?;
    OneAnswer(Listing()[0], Listing()[1]);
    FlatSnoc([], items[0]);
    assert items == [] + [items[0]];
    assert Flat([]) == [];
  }

  lemma OneAnswer(open: Message, answer: Message)
    ensures Messages(Round(open, [answer])) == [open, answer]
    ensures Messages(Excerpted(Round(open, [answer]))) == [open, Shortened(answer)]
  {
    hide Shortened;
    assert AllShortened([answer]) == [Shortened(answer)];
  }

  lemma OneLess(text: string)
    requires |text| == 1025 && forall c <- text :: c == 'a'
    ensures |Excerpt(text, 1024)| == 1024
  {
    hide ExcerptMarker;
    ExcerptIs(text, 1024);
    assert forall i :: 0 <= i < |text| ==> text[i] in text;
    var head := (1024 - |ExcerptMarker()|) / 2;
    assert CutBack(text, head) == head;
    assert CutForward(text, 1025 - (1024 - |ExcerptMarker()| - head)) == 1025 - (1024 - |ExcerptMarker()| - head);
  }

  lemma PairChars(a: Message, b: Message)
    ensures Chars([a, b]) == MessageChars(a) + MessageChars(b)
  {
    hide MessageChars;
    assert CharsTo([a, b], 1) == CharsTo([a, b], 0) + MessageChars(a);
  }

  lemma {:induction false} NoneShrunk(ms: seq<Message>, n: nat)
    requires n <= |ms| && Shrunk(ms, n) == 0
    ensures forall k :: 0 <= k < n ==> AllShortened(ms)[k] == ms[k]
    ensures n == |ms| ==> AllShortened(ms) == ms
  {
    hide Excerpt;
    if n > 0 {
      NoneShrunk(ms, n - 1);
      NotShorter(ms[n-1]);
    }
  }
}
