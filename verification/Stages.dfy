/** Compacting a conversation in stages, least meaning first (internal/engine/compact.go). */
module Stages {
  import opened Decimals
  import opened Evidence
  import opened Transcript
  import opened Items
  import opened Pairing
  import opened Rounds
  import opened Wrappers

  // ---- Where the recent turns begin ----

  /** The position of the keep-th user message from the end of the first i messages, or -1. */
  function Boundary(ms: seq<Message>, keep: int, i: nat): (b: int)
    requires i <= |ms|
    ensures -1 <= b < i || (i == 0 && b == -1)
    ensures b >= 0 ==> ms[b].role == "user"
    decreases i
  {
    if i == 0 then -1
    else if ms[i-1].role != "user" then Boundary(ms, keep, i - 1)
    else if keep == 1 then i - 1
    else Boundary(ms, keep - 1, i - 1)
  }

  function SplitPoint(ms: seq<Message>, keepTurns: int): (p: nat)
    ensures p <= |ms|
  {
    if keepTurns <= 0 then |ms| else
      var b := Boundary(ms, keepTurns, |ms|);
      if b <= 0 then 0 else b
  }

  /** What may be compacted, and the recent turns after it. */
  function Head(ms: seq<Message>, keepTurns: int): seq<Message> { ms[..SplitPoint(ms, keepTurns)] }

  function Tail(ms: seq<Message>, keepTurns: int): seq<Message> { ms[SplitPoint(ms, keepTurns)..] }

  method SplitAtRecentTurns(messages: seq<Message>, keepTurns: int) returns (head: seq<Message>, tail: seq<Message>)
    ensures head == Head(messages, keepTurns) && tail == Tail(messages, keepTurns)
  {
    if keepTurns <= 0 { return messages, []; }
    var seen, boundary, i := 0, -1, |messages| - 1;
    while i >= 0
      invariant -1 <= i < |messages| && seen < keepTurns && boundary == -1
      invariant Boundary(messages, keepTurns - seen, i + 1) == Boundary(messages, keepTurns, |messages|)
    {
      if messages[i].role == "user" {
        seen := seen + 1;
        if seen == keepTurns {
          boundary := i;
          break;
        }
      }
      i := i - 1;
    }
    if boundary <= 0 { return [], messages; }
    return messages[..boundary], messages[boundary..];
  }

  lemma OfRoleFirst(ms: seq<Message>, i: nat, role: string)
    requires i < |ms|
    ensures OfRole(ms[i..], role) == (if ms[i].role == role then [ms[i]] else []) + OfRole(ms[i+1..], role)
  {
    hide OfRoleTo;
    assert ms[i..] == [ms[i]] + ms[i+1..];
    OfRoleConcat([ms[i]], ms[i+1..], role);
    OfRoleOne(ms[i], role);
  }

  lemma OfRoleOne(m: Message, role: string)
    ensures OfRole([m], role) == if m.role == role then [m] else []
  {
    assert OfRoleTo([m], 0, role) == [];
  }

  lemma {:induction false} BoundaryCounts(ms: seq<Message>, keep: int, i: nat)
    requires keep > 0 && i <= |ms|
    ensures var b := Boundary(ms, keep, i);
            if b >= 0 then |OfRole(ms[b..], "user")| == keep + |OfRole(ms[i..], "user")|
            else |OfRole(ms, "user")| < keep + |OfRole(ms[i..], "user")|
  {
    hide OfRole;
    if i == 0 {
      assert ms[0..] == ms;
    } else {
      OfRoleFirst(ms, i - 1, "user");
      if ms[i-1].role != "user" { BoundaryCounts(ms, keep, i - 1); }
      else if keep > 1 { BoundaryCounts(ms, keep - 1, i - 1); }
    }
  }

  /** The tail is exactly the asked-for number of turns, starting at a user message; nothing is compacted as older
      history when there is none before them. */
  lemma SplitsAtTurns(ms: seq<Message>, keepTurns: int)
    ensures var head, tail := Head(ms, keepTurns), Tail(ms, keepTurns);
            && head + tail == ms && (head != [] ==> Startable(tail))
            && (keepTurns <= 0 ==> tail == [])
            && (keepTurns > 0 && head != [] ==>
              tail != [] && tail[0].role == "user" && |OfRole(tail, "user")| == keepTurns)
            && (keepTurns > 0 && head == [] && ms != [] ==> |OfRole(ms[1..], "user")| < keepTurns)
  {
    hide OfRole;
    if keepTurns > 0 {
      BoundaryCounts(ms, keepTurns, |ms|);
      NoneLeft(ms);
      if ms != [] {
        OfRoleFirst(ms, 0, "user");
        assert ms[0..] == ms;
      }
    }
  }

  lemma NoneLeft(ms: seq<Message>)
    ensures OfRole(ms[|ms|..], "user") == []
  {
  }

  // ---- First stage: outputs ----

  function DropPrefix(): string { "[tool output dropped" }

  predicate Droppable(m: Message) {
    m.role == "tool" && m.content != "" && !(DropPrefix() <= m.content)
  }

  function DropOutput(m: Message): Message {
    if Droppable(m) then m.(content := "[tool output dropped: " + Decimal(|m.content|) + " chars]") else m
  }

  function Dropped(ms: seq<Message>): (r: seq<Message>)
    ensures |r| == |ms| && forall k :: 0 <= k < |ms| ==> r[k] == DropOutput(ms[k])
  {
    seq(|ms|, k requires 0 <= k < |ms| => DropOutput(ms[k]))
  }

  function DroppedCount(ms: seq<Message>, n: nat): nat
    requires n <= |ms|
  {
    if n == 0 then 0 else DroppedCount(ms, n - 1) + if Droppable(ms[n-1]) then 1 else 0
  }

  method DropOutputs(head: seq<Message>) returns (working: seq<Message>, replaced: nat)
    ensures working == Dropped(head) && replaced == DroppedCount(head, |head|)
  {
    hide DropPrefix, Decimal;
    working, replaced := head, 0;
    for i := 0 to |working|
      invariant |working| == |head| && replaced == DroppedCount(head, i)
      invariant forall k :: 0 <= k < |head| ==> working[k] == if k < i then DropOutput(head[k]) else head[k]
    {
      if working[i].role != "tool" || working[i].content == "" { continue; }
      if DropPrefix() <= working[i].content { continue; }
      var notice := "[tool output dropped: " + Decimal(|working[i].content|) + " chars]";
      working := working[i := working[i].(content := notice)];
      replaced := replaced + 1;
    }
  }

  /** Afterwards no tool message holds an output any more: each is empty or begins like a notice; one that was dropped
      tells how long it was; and nothing else has changed. */
  lemma OutputsAreGone(m: Message)
    ensures var now := DropOutput(m);
            && now == m.(content := now.content)
            && (m.role != "tool" || m.content == "" || DropPrefix() <= m.content ==> now == m)
            && (m.role == "tool" ==> now.content == "" || DropPrefix() <= now.content)
            && (now != m ==> ReadNumbers(["[tool output dropped: "], now.content) ==
                             Some(Fields([|m.content|], " chars]")))
  {
    hide Decimal, ReadNumbers;
    var none := Fields([], " chars]");
    NoMoreNumbers(" chars]");
    assert " chars]"[0] == ' ';
    NumberReads("[tool output dropped: ", [], |m.content|, " chars]", none);
    assert ["[tool output dropped: "] + [] == ["[tool output dropped: "] && [|m.content|] + [] == [|m.content|];
    assert DropPrefix() <= "[tool output dropped: ";
  }

  /** The count is that of the messages that changed. */
  lemma {:induction false} DroppedCountIsExact(head: seq<Message>, n: nat)
    requires n <= |head|
    ensures DroppedCount(head, n) == Differing(head, Dropped(head), n)
  {
    hide DropOutput, DropPrefix, ReadNumbers;
    if n > 0 {
      DroppedCountIsExact(head, n - 1);
      OutputsAreGone(head[n-1]);
    }
  }

  // ---- Second stage: whole rounds ----

  function CollapsedItem(item: Item): Item {
    if item.Round? then Plain(Digest(item)) else item
  }

  function CollapsedItems(items: seq<Item>): (r: seq<Item>)
    ensures |r| == |items| && forall k :: 0 <= k < |items| ==> r[k] == CollapsedItem(items[k])
  {
    seq(|items|, k requires 0 <= k < |items| => CollapsedItem(items[k]))
  }

  function RoundMessagesTo(items: seq<Item>, n: nat): nat
    requires n <= |items|
  {
    if n == 0 then 0 else RoundMessagesTo(items, n - 1) + if items[n-1].Round? then |Messages(items[n-1])| else 0
  }

  ghost function Collapsed(ms: seq<Message>): seq<Message> { Flat(CollapsedItems(ItemsOf(ms))) }

  ghost function CollapsedCount(ms: seq<Message>): nat { RoundMessagesTo(ItemsOf(ms), |ItemsOf(ms)|) }

  /** Every complete round becomes its digest; everything else stays, in order. */
  method CollapseToolTraffic(messages: seq<Message>) returns (out: seq<Message>, collapsed: nat)
    ensures out == Collapsed(messages) && collapsed == CollapsedCount(messages)
  {
    hide RoundEnd, Digest, Parses, FlatTo, RoundMessagesTo, Messages;
    ghost var items := ItemsOf(messages);
    ghost var n := 0;
    out, collapsed := [], 0;
    var i := 0;
    NoItems(items);
    while i < |messages|
      invariant 0 <= i <= |messages| && n <= |items| && i == Off(items, n)
      invariant out == FlatTo(CollapsedItems(items), n) && collapsed == RoundMessagesTo(items, n)
      decreases |messages| - i
    {
      var end := CompleteToolRound(messages, i);
      ItemHere(items, messages, n, i);
      NextCollapsed(items, n);
      n := n + 1;
      if end == i {
        out := out + [messages[i]];
        FirstOfItem(messages, i, items[n-1], Off(items, n));
        i := i + 1;
        continue;
      }
      RoundMessages(messages, i, end);
      var digest := ToolRoundDigest(messages, i, end);
      out := out + [digest];
      collapsed := collapsed + (end - i);
      i := end;
    }
    AllItems(items, messages, n);
  }

  /** Afterwards there is no complete round left, and every message outside them is still there as it was, those before
      it still before it. */
  lemma RoundsAreGone(ms: seq<Message>)
    ensures Answered(ms) ==> forall i :: 0 <= i < |Collapsed(ms)| ==> RoundEnd(Collapsed(ms), i) == i
    ensures var items, others := ItemsOf(ms), CollapsedItems(ItemsOf(ms));
            forall k :: 0 <= k < |items| && items[k].Plain? ==>
              && Off(others, k) < |Collapsed(ms)| && Collapsed(ms)[Off(others, k)] == items[k].message
              && forall j :: 0 <= j < k ==> Off(others, j) < Off(others, k)
  {
    hide FlatTo, RoundEnd, Parses, Messages, CollapsedItem, Answered, Quiet;
    var items, others := ItemsOf(ms), CollapsedItems(ItemsOf(ms));
    AllPlain(items);
    if Answered(ms) {
      AnsweredItems(items, ms);
      CollapsedQuiet(items);
      PlainParses(others);
      forall i | 0 <= i < |Collapsed(ms)| ensures RoundEnd(Collapsed(ms), i) == i {
        if RoundEnd(Collapsed(ms), i) > i { var k := RoundIsItem(others, Collapsed(ms), i); }
      }
    }
    forall k | 0 <= k < |items| && items[k].Plain?
      ensures Off(others, k) < |Collapsed(ms)| && Collapsed(ms)[Off(others, k)] == items[k].message
      ensures forall j :: 0 <= j < k ==> Off(others, j) < Off(others, k)
    {
      ItemAt(others, k);
      PlainStays(items[k]);
      assert Collapsed(ms)[Off(others, k)] == Collapsed(ms)[Off(others, k)..Off(others, k + 1)][0];
      forall j | 0 <= j < k ensures Off(others, j) < Off(others, k) { FlatGrows(others, j, k); }
    }
  }

  function PlainTo(items: seq<Item>, n: nat): nat
    requires n <= |items|
  {
    if n == 0 then 0 else PlainTo(items, n - 1) + if items[n-1].Plain? then 1 else 0
  }

  /** Every message is counted as collapsed or stands outside the rounds. */
  lemma {:induction false} CollapsedCountIsExact(items: seq<Item>, n: nat)
    requires n <= |items|
    ensures RoundMessagesTo(items, n) + PlainTo(items, n) == Off(items, n)
  {
    if n > 0 { CollapsedCountIsExact(items, n - 1); }
  }

  lemma AllPlain(items: seq<Item>)
    ensures forall k :: 0 <= k < |items| ==> CollapsedItems(items)[k].Plain?
  {
  }

  lemma PlainStays(item: Item)
    requires item.Plain?
    ensures Messages(CollapsedItem(item)) == [item.message]
  {
  }

  lemma NoItems(items: seq<Item>)
    ensures Off(items, 0) == 0 && FlatTo(CollapsedItems(items), 0) == [] && RoundMessagesTo(items, 0) == 0
  {
  }

  lemma NextCollapsed(items: seq<Item>, n: nat)
    requires n < |items|
    ensures FlatTo(CollapsedItems(items), n + 1) ==
      FlatTo(CollapsedItems(items), n) + if items[n].Round? then [Digest(items[n])] else Messages(items[n])
    ensures RoundMessagesTo(items, n + 1) ==
      RoundMessagesTo(items, n) + if items[n].Round? then |Messages(items[n])| else 0
  {
    hide Digest;
  }

  lemma FirstOfItem(ms: seq<Message>, i: nat, item: Item, end: nat)
    requires i < end <= |ms| && item.Plain? && ms[i..end] == Messages(item)
    ensures end == i + 1 && Messages(item) == [ms[i]]
  {
    assert ms[i] == ms[i..end][0];
  }

  lemma AllItems(items: seq<Item>, ms: seq<Message>, n: nat)
    requires Parses(items, ms) && n <= |items| && Off(items, n) == |ms|
    ensures n == |items|
  {
    hide RoundEnd, Messages, FlatTo;
    FlatGrows(items, n, |items|);
  }

  // ---- Fitting ----

  predicate Fits(head: seq<Message>, tail: seq<Message>, target: int) {
    Estimate(head) + Estimate(tail) <= target
  }

  /** Two roundings against one: what `fits` is at most one token over, and exactly when that happens. */
  lemma FitsBound(head: seq<Message>, tail: seq<Message>, target: int)
    requires Fits(head, tail, target)
    ensures Estimate(head + tail) <= target + 1
    ensures Estimate(head + tail) > target <==>
      Estimate(head) + Estimate(tail) == target
          && Chars(head) % CHARS_PER_TOKEN + Chars(tail) % CHARS_PER_TOKEN >= CHARS_PER_TOKEN
  {
    hide CharsTo;
    CharsConcat(head, tail);
  }

  /** It does happen: two messages of three bytes fit a target of no tokens, and are estimated at one. */
  lemma FitsCanOverrun()
    ensures exists head: seq<Message>, tail: seq<Message> :: Fits(head, tail, 0) && Estimate(head + tail) == 1
  {
    var m := Message("user", "abc", "", [], "");
    assert CallChars(m.calls, 0) == 0;
    assert CharsTo([m], 0) == 0;
    assert Chars([m]) == 3;
    CharsConcat([m], [m]);
    assert Fits([m], [m], 0) && Estimate([m] + [m]) == 1;
  }

  // ---- What every stage keeps ----

  ghost predicate KeepsPairing(before: seq<Message>, after: seq<Message>) {
    Answered(before) ==> Answered(after) && (Owned(before) ==> Owned(after))
  }

  ghost predicate KeepsWords(before: seq<Message>, after: seq<Message>) {
    OfRole(after, "system") == OfRole(before, "system") && OfRole(after, "user") == OfRole(before, "user")
  }

  lemma OutputsKeep(head: seq<Message>, tail: seq<Message>)
    ensures KeepsPairing(head + tail, Dropped(head) + tail) && KeepsWords(head + tail, Dropped(head) + tail)
  {
    hide OfRole, Answered, Owned, DropOutput, Dropped;
    DroppedShapes(head, tail);
    PairingOfShape(head + tail, Dropped(head) + tail);
    DroppedOfRole(head, tail, "system");
    DroppedOfRole(head, tail, "user");
  }

  lemma DroppedShapes(head: seq<Message>, tail: seq<Message>)
    ensures var a, b := head + tail, Dropped(head) + tail;
            |a| == |b| && forall k :: 0 <= k < |a| ==> SameShape(a[k], b[k])
  {
    hide DropPrefix, Decimal;
  }

  lemma DroppedOfRole(head: seq<Message>, tail: seq<Message>, role: string)
    requires role != "tool"
    ensures OfRole(Dropped(head) + tail, role) == OfRole(head + tail, role)
  {
    hide DropPrefix, Decimal;
    OfRoleSame(Dropped(head), head, |head|, role);
    OfRoleConcat(Dropped(head), tail, role);
    OfRoleConcat(head, tail, role);
  }

  lemma CollapseKeeps(head: seq<Message>, tail: seq<Message>)
    requires Answered(head + tail) && Startable(tail)
    ensures KeepsPairing(head + tail, Collapsed(head) + tail) && KeepsWords(head + tail, Collapsed(head) + tail)
  {
    hide OfRole, Answered, Owned, FlatTo, Parses, Quiet, Toolless;
    var items := ItemsOf(head);
    PairingConcat(head, tail);
    AnsweredItems(items, head);
    OwnedItems(items, head);
    CollapsedQuiet(items);
    var others := CollapsedItems(items);
    PlainParses(others);
    AnsweredItems(others, Flat(others));
    OwnedItems(others, Flat(others));
    PairingConcat(Flat(others), tail);
    CollapsedOfRole(head, tail, "system");
    CollapsedOfRole(head, tail, "user");
  }

  lemma CollapsedQuiet(items: seq<Item>)
    requires Quiet(items)
    ensures var others := CollapsedItems(items);
            Quiet(others) && (Toolless(items) ==> Toolless(others)) && forall k :: 0 <= k < |others| ==>
                others[k].Plain?
  {
  }

  lemma CollapsedOfRole(head: seq<Message>, tail: seq<Message>, role: string)
    requires role != "assistant" && role != "tool"
    ensures OfRole(Collapsed(head) + tail, role) == OfRole(head + tail, role)
  {
    hide OfRole, FlatTo, Messages, Parses, CollapsedItem;
    var items := ItemsOf(head);
    var others := CollapsedItems(items);
    forall k | 0 <= k < |items| ensures OfRole(Messages(others[k]), role) == OfRole(Messages(items[k]), role) {
      if items[k].Round? { RoundOpens(items, head, k); }
      CollapsedItemOfRole(items[k], role);
    }
    OfRoleItems(items, others, |items|, role);
    HeadIsFlat(head);
    OfRoleConcat(Collapsed(head), tail, role);
    OfRoleConcat(head, tail, role);
  }

  lemma HeadIsFlat(ms: seq<Message>)
    ensures Flat(ItemsOf(ms)) == ms
  {
  }

  lemma CollapsedItemOfRole(item: Item, role: string)
    requires RolesOfRound(item) && role != "assistant" && role != "tool"
    ensures OfRole(Messages(CollapsedItem(item)), role) == OfRole(Messages(item), role)
  {
    hide OfRoleTo;
    if item.Round? {
      RoundHasNone(item, role);
      DigestOfRole(item, role);
    }
  }

  lemma DigestOfRole(round: Item, role: string)
    requires round.Round? && role != "assistant"
    ensures OfRole(Messages(Plain(Digest(round))), role) == []
  {
    hide OfRoleTo;
    OfRoleOne(Digest(round), role);
    assert Messages(Plain(Digest(round))) == [Digest(round)];
  }

  /** Shrinking rounds keeps every call answered, and every instruction and request. */
  lemma SweepsKeep(ms: seq<Message>, target: int, result: Compaction)
    requires Compacted(ms, target, result)
    ensures KeepsPairing(ms, result.messages) && KeepsWords(ms, result.messages)
    ensures result.freed == Estimate(ms) - Estimate(result.messages)
  {
    hide OfRole, KeepsPairing, FlatTo, Parses, Cost, FirstThatFits, CharsTo, IsNewest, Step;
    var newest: int, pass: nat, n: nat :| SweptTo(ms, target, result, newest, pass, n);
    var first := ItemsOf(ms);
    var items := Step(first, newest, pass, n);
    assert Flat(items) + [] == Flat(items);
    StepPairing(first, ms, newest, pass, n);
    StepOfRole(ms, newest, pass, n, "system");
    StepOfRole(ms, newest, pass, n, "user");
  }

  lemma StepPairing(first: seq<Item>, ms: seq<Message>, newest: int, pass: nat, n: nat)
    requires Parses(first, ms) && n <= |first|
    requires Parses(Step(first, newest, pass, n), Flat(Step(first, newest, pass, n)))
    ensures KeepsPairing(ms, Flat(Step(first, newest, pass, n)))
  {
    hide Answered, Owned, FlatTo, Parses, Quiet, Toolless, Step;
    var items := Step(first, newest, pass, n);
    AnsweredItems(first, ms);
    OwnedItems(first, ms);
    AnsweredItems(items, Flat(items));
    OwnedItems(items, Flat(items));
    StepQuiet(first, newest, pass, n);
  }

  lemma StepQuiet(first: seq<Item>, newest: int, pass: nat, n: nat)
    requires n <= |first|
    ensures var items := Step(first, newest, pass, n);
            (Quiet(first) ==> Quiet(items)) && (Toolless(first) ==> Toolless(items))
  {
    hide Digestible;
    var items := Step(first, newest, pass, n);
    if Quiet(first) {
      forall k | 0 <= k < |items| ensures QuietItem(items[k]) { assert QuietItem(first[k]); }
    }
  }

  lemma StepOfRole(ms: seq<Message>, newest: int, pass: nat, n: nat, role: string)
    requires n <= |ItemsOf(ms)| && role != "assistant" && role != "tool"
    ensures OfRole(Flat(Step(ItemsOf(ms), newest, pass, n)), role) == OfRole(ms, role)
  {
    hide OfRole, FlatTo, Messages, Parses, Stage;
    var first := ItemsOf(ms);
    var items := Step(first, newest, pass, n);
    forall k | 0 <= k < |items| ensures OfRole(Messages(items[k]), role) == OfRole(Messages(first[k]), role) {
      if first[k].Round? { RoundOpens(first, ms, k); }
      StageOfRole(first[k], k == newest, if k < n then pass + 1 else pass, role);
    }
    OfRoleItems(first, items, |items|, role);
    HeadIsFlat(ms);
  }

  lemma StageOfRole(item: Item, newest: bool, sweeps: nat, role: string)
    requires RolesOfRound(item) && role != "assistant" && role != "tool"
    ensures OfRole(Messages(Stage(item, newest, sweeps)), role) == OfRole(Messages(item), role)
  {
    hide OfRole, Messages, Digestible, Shortened;
    if item.Round? {
      RoundHasNone(item, role);
      ExcerptedRoles(item);
      RoundHasNone(Excerpted(item), role);
      DigestOfRole(Excerpted(item), role);
    }
  }

  lemma ExcerptedRoles(item: Item)
    requires item.Round? && RolesOfRound(item)
    ensures RolesOfRound(Excerpted(item))
  {
    hide Excerpt;
  }

  // ---- Third stage: a summary ----

  datatype Summary = Written(text: string) | Failed

  type Summarizer = seq<Message> -> Summary

  /** The length of the white space character whose UTF-8 encoding starts at i, or 0. */
  function SpaceAt(text: string, i: nat): (n: nat)
    requires i < |text|
    ensures i + n <= |text|
  {
    var c, rest := text[i] as int, |text| - i;
    if 9 <= c <= 13 || c == 32 then 1
    else if rest >= 2 && c == 0xC2 && text[i+1] as int in {0x85, 0xA0} then 2
    else if rest < 3 then 0
    else
      var d, e := text[i+1] as int, text[i+2] as int;
      if (c == 0xE1 && d == 0x9A && e == 0x80) || (c == 0xE3 && d == 0x80 && e == 0x80)
          || (c == 0xE2 && d == 0x81 && e == 0x9F)
        || (c == 0xE2 && d == 0x80 && (0x80 <= e <= 0x8A || e in {0xA8, 0xA9, 0xAF})) then 3
      else 0
  }

  /** Nothing is left when white space is trimmed. */
  predicate Blank(text: string, i: nat)
    requires i <= |text|
    decreases |text| - i
  {
    i == |text| || (SpaceAt(text, i) > 0 && Blank(text, i + SpaceAt(text, i)))
  }

  /** The instructions, and the first thing the user asked for. */
  function KeptTo(head: seq<Message>, n: nat): seq<Message>
    requires n <= |head|
  {
    if n == 0 then [] else KeptTo(head, n - 1) + if Keeps(head, n - 1) then [head[n-1]] else []
  }

  predicate Keeps(head: seq<Message>, i: nat)
    requires i < |head|
  {
    head[i].role == "system" || (head[i].role == "user" && OfRoleTo(head, i, "user") == [])
  }

  function SummaryMessage(text: string): Message {
    Message("assistant", "[earlier conversation, summarised]\n" + text, "", [], "")
  }

  function Summarized(head: seq<Message>, text: string): seq<Message> {
    KeptTo(head, |head|) + [SummaryMessage(text)]
  }

  function FirstOnly(ms: seq<Message>): seq<Message> {
    if ms == [] then [] else [ms[0]]
  }

  method KeepGoal(head: seq<Message>) returns (kept: seq<Message>)
    ensures kept == KeptTo(head, |head|)
  {
    kept := [];
    var goalKept := false;
    for i := 0 to |head|
      invariant kept == KeptTo(head, i) && (goalKept <==> OfRoleTo(head, i, "user") != [])
    {
      if head[i].role == "system" || (head[i].role == "user" && !goalKept) {
        kept := kept + [head[i]];
        goalKept := goalKept || head[i].role == "user";
      }
    }
  }

  lemma {:induction false} KeptWords(head: seq<Message>, n: nat)
    requires n <= |head|
    ensures OfRole(KeptTo(head, n), "system") == OfRoleTo(head, n, "system")
    ensures OfRole(KeptTo(head, n), "user") == FirstOnly(OfRoleTo(head, n, "user"))
  {
    if n > 0 {
      KeptWords(head, n - 1);
      KeptStep(head, n, "system");
      KeptStep(head, n, "user");
    }
  }

  lemma KeptStep(head: seq<Message>, n: nat, role: string)
    requires 0 < n <= |head|
    ensures OfRole(KeptTo(head, n), role) ==
      OfRole(KeptTo(head, n - 1), role) + if Keeps(head, n - 1) && head[n-1].role == role then [head[n-1]] else []
  {
    hide OfRole, Keeps;
    assert KeptTo(head, n - 1) + [] == KeptTo(head, n - 1);
    if Keeps(head, n - 1) {
      OfRoleConcat(KeptTo(head, n - 1), [head[n-1]], role);
      OfRoleOne(head[n-1], role);
    }
  }

  lemma {:induction false} KeptAreQuiet(head: seq<Message>, n: nat)
    requires n <= |head| && Answered(head)
    ensures Callless(KeptTo(head, n)) && forall m <- KeptTo(head, n) :: m.role != "tool"
  {
    if n > 0 { KeptAreQuiet(head, n - 1); }
  }

  lemma SummaryKeeps(head: seq<Message>, tail: seq<Message>, text: string)
    requires Answered(head + tail) && Startable(tail)
    ensures var after := Summarized(head, text) + tail;
            && KeepsPairing(head + tail, after)
            && OfRole(after, "system") == OfRole(head + tail, "system")
            && OfRole(after, "user") == FirstOnly(OfRole(head, "user")) + OfRole(tail, "user")
  {
    hide Answered, Owned, OfRoleTo, KeptTo;
    var before := Summarized(head, text);
    PairingConcat(head, tail);
    KeptAreQuiet(head, |head|);
    NothingToPair(before);
    PairingConcat(before, tail);
    KeptWords(head, |head|);
    SummaryOfRole(head, tail, text, "system");
    SummaryOfRole(head, tail, text, "user");
    OfRoleConcat(head, tail, "system");
  }

  lemma SummaryOfRole(head: seq<Message>, tail: seq<Message>, text: string, role: string)
    requires role != "assistant"
    ensures OfRole(Summarized(head, text) + tail, role) == OfRole(KeptTo(head, |head|), role) + OfRole(tail, role)
  {
    hide OfRoleTo, KeptTo;
    var kept := KeptTo(head, |head|);
    OfRoleConcat(Summarized(head, text), tail, role);
    OfRoleConcat(kept, [SummaryMessage(text)], role);
    OfRoleOne(SummaryMessage(text), role);
  }

  // ---- Compaction ----

  const STAGE_TOOL_CALLS := "tool calls"
  const STAGE_SUMMARY := "summary"

  /** A cheaper transcript, then its rounds shrunk if that is not enough and helps. */
  ghost predicate RecentCompacted(given: Compaction, target: int, result: Compaction) {
    if Estimate(given.messages) <= target then result == given
    else exists recent :: Compacted(given.messages, target, recent) && result == Merged(given, recent)
  }

  function Merged(given: Compaction, recent: Compaction): Compaction {
    if recent.freed <= 0 then given
    else Compaction(recent.messages, if given.stage != STAGE_NONE then given.stage else recent.stage,
                    recent.replaced + given.replaced, recent.freed + given.freed)
  }

  method CompactRounds(messages: seq<Message>, target: int) returns (result: Compaction)
    ensures Compacted(messages, target, result)
  {
    hide SweptTo;
    ghost var newest, pass, n;
    result, newest, pass, n := CompactToolRounds(messages, target);
  }

  method CompactRecent(given: Compaction, target: int) returns (result: Compaction)
    ensures RecentCompacted(given, target, result)
  {
    hide Compacted;
    var tokens := EstimateTokens(given.messages);
    if tokens <= target { return given; }
    var recent := CompactRounds(given.messages, target);
    if recent.freed > 0 {
      result := recent;
      if given.stage != STAGE_NONE { result := result.(stage := given.stage); }
      result := result.(replaced := result.replaced + given.replaced, freed := result.freed + given.freed);
      return;
    }
    return given;
  }

  /** Shrinking the rounds of what a stage left keeps what the stage kept, and the account. */
  lemma RecentKeeps(before: seq<Message>, given: Compaction, target: int, result: Compaction)
    requires RecentCompacted(given, target, result) && given.freed == Estimate(before) - Estimate(given.messages)
    ensures KeepsPairing(given.messages, result.messages) && KeepsWords(given.messages, result.messages)
    ensures result.freed == Estimate(before) - Estimate(result.messages)
    ensures result.replaced >= given.replaced && (result != given ==> result.replaced > given.replaced)
    ensures given.stage != STAGE_NONE ==> result.stage == given.stage
  {
    hide OfRole, Answered, Owned, Compacted, CharsTo;
    if Estimate(given.messages) > target {
      var recent :| Compacted(given.messages, target, recent) && result == Merged(given, recent);
      SweepsKeep(given.messages, target, recent);
      SweepsAreCounted(given.messages, target, recent);
    }
  }

  // ---- What a summary leaves ----

  ghost predicate EndsIn(s: string, text: string) {
    |text| <= |s| && s[|s|-|text|..] == text
  }

  /** The instructions and the first request of the older history, then one new message of the assistant, without calls,
      that ends in the summarizer's text, then the recent turns, of which only rounds may have shrunk. */
  ghost predicate HasSummary(head: seq<Message>, tail: seq<Message>, text: string, after: seq<Message>) {
    var kept := KeptTo(head, |head|);
    && |kept| < |after| && after[..|kept|] == kept
    && var m, recent := after[|kept|], after[|kept|+1..];
    && m.role == "assistant" && m.calls == [] && m.callId == "" && m.reasoning == "" && EndsIn(m.content, text)
    && OfRole(recent, "system") == OfRole(tail, "system") && OfRole(recent, "user") == OfRole(tail, "user")
    && (recent == tail || Chars(recent) < Chars(tail))
  }

  /** Messages that open no round and answer none stand alone in any reading. */
  lemma {:induction false} InertItems(items: seq<Item>, ms: seq<Message>, p: nat)
    requires Parses(items, ms) && p <= |ms| && forall i :: 0 <= i < p ==> Inert(ms[i])
    ensures p <= |items| && Off(items, p) == p && forall k :: 0 <= k < p ==> items[k] == Plain(ms[k])
  {
    hide FlatTo, Messages;
    if p == 0 {
      OffZero(items);
    } else {
      InertItems(items, ms, p - 1);
      ItemHere(items, ms, p - 1, p - 1);
      InertOpensNothing(ms, p - 1);
      FirstOfItem(ms, p - 1, items[p-1], Off(items, p));
      assert Messages(items[p-1])[0] == ms[p-1];
      assert items[p-1] == Plain(ms[p-1]) by { PlainIs(items[p-1], ms[p-1]); }
    }
  }

  lemma PlainIs(item: Item, m: Message)
    requires item.Plain? && Messages(item) == [m]
    ensures item == Plain(m)
  {
    assert Messages(item)[0] == item.message;
  }

  lemma InertOpensNothing(ms: seq<Message>, i: nat)
    requires i < |ms| && Inert(ms[i])
    ensures RoundEnd(ms, i) == i
  {
  }

  /** Shrinking rounds leaves such a beginning alone, and only makes what follows shorter. */
  lemma SweptPrefix(ms: seq<Message>, target: int, result: Compaction, p: nat)
    requires Compacted(ms, target, result) && p <= |ms| && forall i :: 0 <= i < p ==> Inert(ms[i])
    ensures p <= |result.messages| && result.messages[..p] == ms[..p]
  {
    hide SweptTo, Inert;
    var newest: int, pass: nat, n: nat :| SweptTo(ms, target, result, newest, pass, n);
    StepPrefix(ms, target, result, p, newest, pass, n);
  }

  lemma StepPrefix(ms: seq<Message>, target: int, result: Compaction, p: nat, newest: int, pass: nat, n: nat)
    requires SweptTo(ms, target, result, newest, pass, n) && p <= |ms| && forall i :: 0 <= i < p ==> Inert(ms[i])
    ensures p <= |result.messages| && result.messages[..p] == ms[..p]
  {
    hide FlatTo, Cost, FirstThatFits, CharsTo, IsNewest, Step, ParsedAt, Inert;
    var first := ItemsOf(ms);
    var items := Step(first, newest, pass, n);
    assert Flat(items) + [] == Flat(items);
    InertItems(first, ms, p);
    FlatGrows(items, p, |items|);
    FlatGrows(first, p, |first|);
    SamePrefix(first, newest, pass, n, p);
  }

  lemma SamePrefix(first: seq<Item>, newest: int, pass: nat, n: nat, p: nat)
    requires n <= |first| && p <= |first| && forall k :: 0 <= k < p ==> first[k].Plain?
    ensures FlatTo(Step(first, newest, pass, n), p) == FlatTo(first, p)
  {
    var items := Step(first, newest, pass, n);
    assert items[..p] == first[..p];
    FlatSame(items, first, p);
  }

  /** Right after summarizing, and after shrinking the recent rounds. */
  lemma SummaryIsKept(head: seq<Message>, tail: seq<Message>, text: string, target: int, original: nat,
                      result: Compaction)
    requires Answered(head + tail) && Startable(tail)
    requires RecentCompacted(Finish(Summarized(head, text), tail, STAGE_SUMMARY, |head|, original), target, result)
    ensures HasSummary(head, tail, text, result.messages)
  {
    hide Answered, Owned, OfRole, KeptTo, CharsTo, Compacted;
    var kept, m := KeptTo(head, |head|), SummaryMessage(text);
    var before := kept + [m];
    var given := Finish(before, tail, STAGE_SUMMARY, |head|, original);
    assert EndsIn(m.content, text);
    if result == given {
      assert (before + tail)[|kept|+1..] == tail;
    } else {
      var recent :| Compacted(given.messages, target, recent) && result == Merged(given, recent);
      SummaryStays(head, tail, text, target, recent);
    }
  }

  lemma SummaryStays(head: seq<Message>, tail: seq<Message>, text: string, target: int, recent: Compaction)
    requires Answered(head + tail) && Startable(tail)
    requires Compacted(Summarized(head, text) + tail, target, recent)
    ensures HasSummary(head, tail, text, recent.messages)
  {
    hide Answered, Owned, OfRole, KeptTo, CharsTo, Compacted, EndsIn;
    var before := Summarized(head, text);
    var ms, p := before + tail, |before|;
    PairingConcat(head, tail);
    KeptAreQuiet(head, |head|);
    SweptPrefix(ms, target, recent, p);
    SweepsKeep(ms, target, recent);
    ChangesShrink(ms, target, recent);
    var after, rest := recent.messages, recent.messages[p..];
    assert after == before + rest;
    assert after[..p-1] == before[..p-1] && before[..p-1] == KeptTo(head, |head|);
    assert after[p-1] == before[p-1] == SummaryMessage(text);
    TailOfRole(before, tail, rest, "system");
    TailOfRole(before, tail, rest, "user");
    CharsConcat(before, tail);
    CharsConcat(before, rest);
    assert EndsIn(SummaryMessage(text).content, text) by { SummaryEnds(text); }
  }

  lemma SummaryEnds(text: string)
    ensures EndsIn(SummaryMessage(text).content, text)
  {
  }

  lemma TailOfRole(before: seq<Message>, tail: seq<Message>, rest: seq<Message>, role: string)
    requires OfRole(before + rest, role) == OfRole(before + tail, role)
    ensures OfRole(rest, role) == OfRole(tail, role)
  {
    hide OfRole;
    OfRoleConcat(before, tail, role);
    OfRoleConcat(before, rest, role);
    var own := OfRole(before, role);
    assert OfRole(rest, role) == (own + OfRole(rest, role))[|own|..] == (own + OfRole(tail, role))[|own|..];
  }

  /** What the cheaper stages leave of the older history, and how many messages they rewrote. */
  ghost function Cheapest(head: seq<Message>): seq<Message> {
    if CollapsedCount(head) > 0 then Collapsed(head) else Dropped(head)
  }

  ghost function Cheap(head: seq<Message>, tail: seq<Message>, stage: string, original: nat): Compaction {
    Finish(Cheapest(head), tail, stage, DroppedCount(head, |head|) + CollapsedCount(head), original)
  }

  /** Which transcript compaction settles on: the first stage that fits. */
  ghost predicate Settled(ms: seq<Message>, head: seq<Message>, tail: seq<Message>, target: int,
    summarize: Option<Summarizer>,
                          result: Compaction, failed: bool)
  {
    var original := Estimate(ms);
    if original <= target || !Answered(ms) then result == Compaction(ms, STAGE_NONE, 0, 0) && !failed
    else if head == [] then Compacted(ms, target, result) && !failed
    else if Fits(Dropped(head), tail, target) then
      result == Finish(Dropped(head), tail, STAGE_TOOL_RESULTS, DroppedCount(head, |head|), original) && !failed
    else if Fits(Cheapest(head), tail, target) then result == Cheap(head, tail, STAGE_TOOL_CALLS, original) && !failed
    else exists local ::
      && RecentCompacted(Cheap(head, tail, if CollapsedCount(head) > 0 then STAGE_TOOL_CALLS else STAGE_TOOL_RESULTS,
        original), target, local)
      && SettledAfter(head, tail, target, summarize, original, local, result, failed)
  }

  ghost predicate SettledAfter(head: seq<Message>, tail: seq<Message>, target: int, summarize: Option<Summarizer>,
                               original: nat, local: Compaction, result: Compaction, failed: bool)
  {
    if Estimate(local.messages) <= target || OnlyInstructions(head) || summarize.None? then
      result == local && !failed
    else
      match summarize.value(head)
      case Failed => result == local && failed
      case Written(text) =>
        && !failed
        && if Blank(text, 0) then result == local
           else RecentCompacted(Finish(Summarized(head, text), tail, STAGE_SUMMARY, |head|, original), target, result)
  }

  /** Is there a message whose calls are not a complete round? */
  method AnyUnfinished(messages: seq<Message>) returns (unfinished: bool)
    ensures unfinished <==> !Answered(messages)
  {
    hide RoundEnd;
    for i := 0 to |messages|
      invariant forall k :: 0 <= k < i && messages[k].calls != [] ==> RoundEnd(messages, k) > k
    {
      if |messages[i].calls| > 0 {
        var end := CompleteToolRound(messages, i);
        if end == i { return true; }
      }
    }
    return false;
  }

  /** The older history is one system message: there is nothing to summarize. */
  predicate OnlyInstructions(head: seq<Message>) {
    |head| == 1 && head[0].role == "system"
  }

  predicate Summarizable(head: seq<Message>) {
    head != [] && !OnlyInstructions(head)
  }

  /** Whether a summarizer was asked for the older history, and then what became of its answer. */
  ghost predicate AskedFor(head: seq<Message>, tail: seq<Message>, summarize: Option<Summarizer>, result: Compaction,
                           failed: bool, asked: bool)
  {
    && (asked ==> summarize.Some? && !OnlyInstructions(head))
    && (failed <==> asked && summarize.value(head).Failed?)
    && (asked && summarize.value(head).Written? && !Blank(summarize.value(head).text, 0) ==>
          HasSummary(head, tail, summarize.value(head).text, result.messages))
  }

  /** The last resort, when a summarizer is at hand and the cheaper stages were not enough. */
  method Summarize(head: seq<Message>, tail: seq<Message>, local: Compaction, target: int,
    summarize: Option<Summarizer>,
                   ghost messages: seq<Message>)
    returns (result: Compaction, failed: bool, ghost asked: bool)
    requires messages == head + tail && head != [] && Startable(tail) && Answered(messages)
    requires KeepsPairing(messages, local.messages) && KeepsWords(messages, local.messages)
    requires local.freed == Estimate(messages) - Estimate(local.messages)
    ensures SettledAfter(head, tail, target, summarize, Estimate(messages), local, result, failed)
    ensures AskedFor(head, tail, summarize, result, failed, asked)
    ensures !asked && summarize.Some? && !OnlyInstructions(head) ==> Estimate(result.messages) <= target
    ensures KeepsPairing(messages, result.messages)
    ensures OfRole(result.messages, "system") == OfRole(messages, "system")
    ensures OfRole(result.messages, "user") == OfRole(messages, "user") ||
      (summarize.Some? && OfRole(result.messages, "user") == FirstOnly(OfRole(head, "user")) + OfRole(tail, "user"))
    ensures result.freed == Estimate(messages) - Estimate(result.messages)
  {
    hide Answered, Owned, OfRoleTo, Compacted, RecentCompacted, Blank, KeptTo, CharsTo, KeepsPairing;
    failed, result, asked := false, local, false;
    var tokens := EstimateTokens(local.messages);
    if tokens <= target || OnlyInstructions(head) { return; }
    if summarize.None? { return; }
    asked := true;
    var summary := summarize.value(head);
    if summary.Failed? { failed := true; return; }
    if Blank(summary.text, 0) { return; }
    var kept := KeepGoal(head);
    kept := kept + [SummaryMessage(summary.text)];
    var original := EstimateTokens(head + tail);
    var given := Finish(kept, tail, STAGE_SUMMARY, |head|, original);
    SummaryKeeps(head, tail, summary.text);
    result := CompactRecent(given, target);
    SummaryIsKept(head, tail, summary.text, target, original, result);
    RecentKeeps(messages, given, target, result);
    KeepsPairingTwice(messages, given.messages, result.messages);
  }

  lemma KeepsPairingTwice(a: seq<Message>, b: seq<Message>, c: seq<Message>)
    requires KeepsPairing(a, b) && KeepsPairing(b, c)
    ensures KeepsPairing(a, c)
  {
    hide Answered, Owned;
  }

  /** Compaction by stages. Whatever the summarizer says and whatever the target: calls stay answered, the instructions
      stay, the requests stay or only the first of the older ones does, and the freed tokens are the difference of the
      estimates. What a summarizer answers is in the result, and one that is at hand is asked unless the result fits
      without it. */
  method CompactMessages(messages: seq<Message>, keepTurns: int, target: int, summarize: Option<Summarizer>)
    returns (result: Compaction, failed: bool, ghost asked: bool)
    ensures AskedFor(Head(messages, keepTurns), Tail(messages, keepTurns), summarize, result, failed, asked)
    ensures !asked && summarize.Some? && Answered(messages) && Summarizable(Head(messages, keepTurns)) ==>
      Estimate(result.messages) <= target + 1
    ensures Settled(messages, Head(messages, keepTurns), Tail(messages, keepTurns), target, summarize, result, failed)
    ensures KeepsPairing(messages, result.messages)
    ensures OfRole(result.messages, "system") == OfRole(messages, "system")
    ensures OfRole(result.messages, "user") == OfRole(messages, "user")
      || (summarize.Some? && OfRole(result.messages, "user") ==
      FirstOnly(OfRole(Head(messages, keepTurns), "user")) + OfRole(Tail(messages, keepTurns), "user"))
    ensures result.freed == Estimate(messages) - Estimate(result.messages)
  {
    hide Answered, Owned, OfRoleTo, Compacted, RecentCompacted, SettledAfter, Fits, Dropped, Collapsed, CollapsedCount,
        Blank,
         DroppedCount, Summarized, CharsTo, Head, Tail, SweptTo, HasSummary;
    failed, asked := false, false;
    var original := EstimateTokens(messages);
    result := Compaction(messages, STAGE_NONE, 0, 0);
    if original <= target { return; }
    var unfinished := AnyUnfinished(messages);
    if unfinished { return; }

    var head, tail := SplitAtRecentTurns(messages, keepTurns);
    SplitsAtTurns(messages, keepTurns);
    if |head| == 0 {
      result := CompactRounds(messages, target);
      SweepsKeep(messages, target, result);
      return;
    }

    var working, replaced := DropOutputs(head);
    OutputsKeep(head, tail);
    if Fits(working, tail, target) {
      FitsBound(working, tail, target);
      result := Finish(working, tail, STAGE_TOOL_RESULTS, replaced, original);
      return;
    }

    var collapsed, collapsedCount := CollapseToolTraffic(head);
    CollapseKeeps(head, tail);
    if collapsedCount > 0 {
      replaced := replaced + collapsedCount;
      working := collapsed;
    }
    if Fits(working, tail, target) {
      FitsBound(working, tail, target);
      result := Finish(working, tail, STAGE_TOOL_CALLS, replaced, original);
      return;
    }

    var stage := if collapsedCount == 0 then STAGE_TOOL_RESULTS else STAGE_TOOL_CALLS;
    var given := Finish(working, tail, stage, replaced, original);
    var local := CompactRecent(given, target);
    RecentKeeps(messages, given, target, local);
    KeepsPairingTwice(messages, given.messages, local.messages);
    result, failed, asked := Summarize(head, tail, local, target, summarize, messages);
  }

  // ---- What is gained is reported ----

  predicate Reported(c: Compaction) {
    c.freed > 0 ==> c.stage != STAGE_NONE && c.replaced > 0
  }

  lemma FinishReported(head: seq<Message>, tail: seq<Message>, stage: string, replaced: nat, ms: seq<Message>)
    requires stage != STAGE_NONE && (replaced == 0 ==> head + tail == ms)
    ensures Reported(Finish(head, tail, stage, replaced, Estimate(ms)))
  {
    hide CharsTo;
  }

  lemma RecentReported(given: Compaction, target: int, result: Compaction)
    requires RecentCompacted(given, target, result) && Reported(given)
    ensures Reported(result)
  {
    hide Compacted, CharsTo;
    if Estimate(given.messages) > target {
      var recent :| Compacted(given.messages, target, recent) && result == Merged(given, recent);
      SweepsAreCounted(given.messages, target, recent);
    }
  }

  lemma {:induction false} NothingDropped(head: seq<Message>, n: nat)
    requires n <= |head| && DroppedCount(head, n) == 0
    ensures forall k :: 0 <= k < n ==> DropOutput(head[k]) == head[k]
    ensures n == |head| ==> Dropped(head) == head
  {
    hide Decimal, DropPrefix;
    if n > 0 { NothingDropped(head, n - 1); }
  }

  /** Tokens are never freed without a stage and a count of messages to show for it. */
  lemma GainIsReported(ms: seq<Message>, head: seq<Message>, tail: seq<Message>, target: int,
    summarize: Option<Summarizer>,
                       result: Compaction, failed: bool)
    requires ms == head + tail && Settled(ms, head, tail, target, summarize, result, failed)
    ensures Reported(result)
  {
    hide Answered, Fits, Dropped, Collapsed, CollapsedCount, DroppedCount, Compacted, CharsTo, Reported,
        RecentCompacted, Finish,
         SettledAfter, Cheapest;
    var original := Estimate(ms);
    if original <= target || !Answered(ms) {
      NothingGained(ms);
    } else if head == [] {
      SweepsReported(ms, target, result);
    } else if Fits(Dropped(head), tail, target) {
      OutputsReported(ms, head, tail);
    } else {
      CheapReported(ms, head, tail, STAGE_TOOL_CALLS);
      CheapReported(ms, head, tail, STAGE_TOOL_RESULTS);
      if !Fits(Cheapest(head), tail, target) {
        var stage := if CollapsedCount(head) > 0 then STAGE_TOOL_CALLS else STAGE_TOOL_RESULTS;
        var local :| RecentCompacted(Cheap(head, tail, stage, original), target, local)
                     && SettledAfter(head, tail, target, summarize, original, local, result, failed);
        RecentReported(Cheap(head, tail, stage, original), target, local);
        AfterReported(ms, head, tail, target, summarize, local, result, failed);
      }
    }
  }

  lemma NothingGained(ms: seq<Message>)
    ensures Reported(Compaction(ms, STAGE_NONE, 0, 0))
  {
  }

  lemma SweepsReported(ms: seq<Message>, target: int, result: Compaction)
    requires Compacted(ms, target, result)
    ensures Reported(result)
  {
    hide Compacted;
    SweepsAreCounted(ms, target, result);
  }

  lemma OutputsReported(ms: seq<Message>, head: seq<Message>, tail: seq<Message>)
    requires ms == head + tail
    ensures Reported(Finish(Dropped(head), tail, STAGE_TOOL_RESULTS, DroppedCount(head, |head|), Estimate(ms)))
  {
    hide Dropped, CharsTo, Reported, Finish;
    if DroppedCount(head, |head|) == 0 { NothingDropped(head, |head|); }
    FinishReported(Dropped(head), tail, STAGE_TOOL_RESULTS, DroppedCount(head, |head|), ms);
  }

  lemma CheapReported(ms: seq<Message>, head: seq<Message>, tail: seq<Message>, stage: string)
    requires ms == head + tail && stage != STAGE_NONE
    ensures Reported(Cheap(head, tail, stage, Estimate(ms)))
  {
    hide Dropped, Collapsed, CollapsedCount, CharsTo, Reported, Finish;
    if DroppedCount(head, |head|) == 0 { NothingDropped(head, |head|); }
    FinishReported(Cheapest(head), tail, stage, DroppedCount(head, |head|) + CollapsedCount(head), ms);
  }

  lemma AfterReported(ms: seq<Message>, head: seq<Message>, tail: seq<Message>, target: int,
    summarize: Option<Summarizer>,
                      local: Compaction, result: Compaction, failed: bool)
    requires head != [] && Reported(local)
      && SettledAfter(head, tail, target, summarize, Estimate(ms), local, result, failed)
    ensures Reported(result)
  {
    hide Blank, CharsTo, Reported, RecentCompacted, Finish;
    if result != local {
      var text := summarize.value(head).text;
      FinishReported(Summarized(head, text), tail, STAGE_SUMMARY, |head|, ms);
      RecentReported(Finish(Summarized(head, text), tail, STAGE_SUMMARY, |head|, Estimate(ms)), target, result);
    }
  }

  /** No more is given up than needed: only the outputs if that fits, else the rounds if that does, in both cases with
      at most one token too many. */
  lemma FittingStaysFit(ms: seq<Message>, head: seq<Message>, tail: seq<Message>, target: int,
    summarize: Option<Summarizer>,
                        result: Compaction, failed: bool)
    requires Settled(ms, head, tail, target, summarize, result, failed)
    requires Estimate(ms) > target && Answered(ms) && head != []
    requires Estimate(Dropped(head)) + Estimate(tail) <= target || Estimate(Cheapest(head)) + Estimate(tail) <= target
    ensures result.messages ==
      (if Estimate(Dropped(head)) + Estimate(tail) <= target then Dropped(head) else Cheapest(head)) + tail
    ensures Estimate(result.messages) <= target + 1
    ensures |tail| <= |result.messages| && result.messages[|result.messages| - |tail|..] == tail
  {
    hide Answered, Dropped, Cheapest, CharsTo;
    var kept := if Fits(Dropped(head), tail, target) then Dropped(head) else Cheapest(head);
    FitsBound(kept, tail, target);
    assert result.messages == kept + tail;
  }

  /** Nothing is left to shrink, or what shrinking would gain is too little for the estimate to show. */
  ghost predicate Squeezed(ms: seq<Message>, target: int) {
    Exhausted(ms) || exists swept :: Compacted(ms, target, swept) && swept.freed <= 0
  }

  /** When even the result is too large, everything cheaper than losing recent turns has been tried. */
  lemma TooLargeIsSqueezed(ms: seq<Message>, head: seq<Message>, tail: seq<Message>, target: int,
    summarize: Option<Summarizer>,
                           result: Compaction, failed: bool)
    requires Settled(ms, head, tail, target, summarize, result, failed) && Answered(ms)
    requires Estimate(result.messages) > target + 1
    ensures Squeezed(result.messages, target)
  {
    hide Answered, Fits, Dropped, Collapsed, CollapsedCount, DroppedCount, CharsTo, Cheapest, Blank, Compacted,
        Exhausted, RecentCompacted, Squeezed;
    if Estimate(ms) <= target {
    } else if head == [] {
      SweptIsSqueezed(ms, target, result);
    } else if Fits(Dropped(head), tail, target) {
      FitsBound(Dropped(head), tail, target);
    } else if Fits(Cheapest(head), tail, target) {
      FitsBound(Cheapest(head), tail, target);
    } else {
      var stage := if CollapsedCount(head) > 0 then STAGE_TOOL_CALLS else STAGE_TOOL_RESULTS;
      var local :| RecentCompacted(Cheap(head, tail, stage, Estimate(ms)), target, local)
                   && SettledAfter(head, tail, target, summarize, Estimate(ms), local, result, failed);
      if result == local {
        RecentIsSqueezed(Cheap(head, tail, stage, Estimate(ms)), target, local);
      } else {
        var text := summarize.value(head).text;
        RecentIsSqueezed(Finish(Summarized(head, text), tail, STAGE_SUMMARY, |head|, Estimate(ms)), target, result);
      }
    }
  }

  lemma SweptIsSqueezed(ms: seq<Message>, target: int, result: Compaction)
    requires Compacted(ms, target, result) && Estimate(result.messages) > target
    ensures Squeezed(result.messages, target)
  {
    hide Compacted, CharsTo, Exhausted;
    TooLargeIsExhausted(ms, target, result);
  }

  lemma RecentIsSqueezed(given: Compaction, target: int, result: Compaction)
    requires RecentCompacted(given, target, result) && Estimate(result.messages) > target
    ensures Squeezed(result.messages, target)
  {
    hide Compacted, CharsTo, Exhausted;
    if Estimate(given.messages) > target {
      var recent :| Compacted(given.messages, target, recent) && result == Merged(given, recent);
      if recent.freed > 0 { TooLargeIsExhausted(given.messages, target, recent); }
    }
  }
}
