/** A transcript as plain messages and complete rounds (internal/engine/compact_rounds.go). */
module Items {
  import opened Transcript

  datatype Item = Plain(message: Message) | Round(open: Message, answers: seq<Message>)

  function Messages(item: Item): (ms: seq<Message>)
    ensures ms != []
  {
    match item case Plain(m) => [m] case Round(m, answers) => [m] + answers
  }

  function FlatTo(items: seq<Item>, n: nat): seq<Message>
    requires n <= |items|
  {
    if n == 0 then [] else FlatTo(items, n - 1) + Messages(items[n-1])
  }

  function Flat(items: seq<Item>): seq<Message> { FlatTo(items, |items|) }

  /** Where item k starts. */
  function Off(items: seq<Item>, k: nat): nat
    requires k <= |items|
  {
    |FlatTo(items, k)|
  }

  /** The items are the transcript's messages, its rounds exactly the complete ones. */
  ghost predicate Parses(items: seq<Item>, ms: seq<Message>) {
    Flat(items) == ms && forall k :: 0 <= k < |items| ==> ParsedAt(items, ms, k)
  }

  ghost predicate ParsedAt(items: seq<Item>, ms: seq<Message>, k: nat)
    requires k < |items|
  {
    Off(items, k) < |ms| && RoundEnd(ms, Off(items, k)) == if items[k].Round? then Off(items, k + 1) else Off(items, k)
  }

  // ---- Offsets ----

  lemma {:induction false} FlatPrefix(items: seq<Item>, more: seq<Item>, n: nat)
    requires n <= |items|
    ensures FlatTo(items + more, n) == FlatTo(items, n)
  {
    hide Messages;
    if n > 0 { FlatPrefix(items, more, n - 1); }
  }

  lemma PrefixOfMore(a: seq<Message>, b: seq<Message>, more: seq<Message>)
    requires a <= b
    ensures a <= b + more
  {
  }

  lemma {:induction false} FlatGrows(items: seq<Item>, j: nat, k: nat)
    requires j <= k <= |items|
    ensures FlatTo(items, j) <= FlatTo(items, k) && Off(items, j) + (k - j) <= Off(items, k)
    decreases k - j
  {
    hide Messages;
    if j < k {
      FlatGrows(items, j, k - 1);
      PrefixOfMore(FlatTo(items, j), FlatTo(items, k - 1), Messages(items[k-1]));
    }
  }

  /** Item k sits at its offset. */
  lemma ItemAt(items: seq<Item>, k: nat)
    requires k < |items|
    ensures Off(items, k) + |Messages(items[k])| == Off(items, k + 1) <= |Flat(items)|
    ensures Flat(items)[Off(items, k)..Off(items, k + 1)] == Messages(items[k])
    ensures Flat(items)[..Off(items, k)] == FlatTo(items, k)
  {
    FlatGrows(items, k, k + 1);
    FlatGrows(items, k + 1, |items|);
    FlatGrows(items, k, |items|);
    assert FlatTo(items, k + 1) == Flat(items)[..Off(items, k + 1)];
  }

  /** Every position belongs to an item. */
  lemma {:induction false} Locate(items: seq<Item>, n: nat, i: nat) returns (k: nat)
    requires n <= |items| && i < Off(items, n)
    ensures k < n && Off(items, k) <= i < Off(items, k + 1)
  {
    if i >= Off(items, n - 1) { k := n - 1; } else { k := Locate(items, n - 1, i); }
  }

  // ---- Reading a transcript ----

  ghost predicate ParsedUpTo(items: seq<Item>, ms: seq<Message>, i: nat) {
    i <= |ms| && Flat(items) == ms[..i] && forall k :: 0 <= k < |items| ==> ParsedAt(items, ms, k)
  }

  lemma ItemMessages(ms: seq<Message>, i: nat, next: nat, item: Item)
    requires i < next <= |ms|
    requires item == Round(ms[i], ms[i+1..next]) || (next == i + 1 && item == Plain(ms[i]))
    ensures Messages(item) == ms[i..next] && ms[..next] == ms[..i] + Messages(item)
  {
  }

  lemma AddParsed(items: seq<Item>, ms: seq<Message>, i: nat, item: Item)
    requires ParsedUpTo(items, ms, i) && i < |ms|
    requires var e := RoundEnd(ms, i);
             item == if e > i then Round(ms[i], ms[i+1..e]) else Plain(ms[i])
    ensures ParsedUpTo(items + [item], ms, if RoundEnd(ms, i) > i then RoundEnd(ms, i) else i + 1)
  {
    hide RoundEnd, Messages, FlatTo;
    var e := RoundEnd(ms, i);
    var items', next := items + [item], if e > i then e else i + 1;
    ItemMessages(ms, i, next, item);
    FlatSnoc(items, item);
    forall k | 0 <= k < |items'| ensures ParsedAt(items', ms, k) {
      if k < |items| {
        FlatPrefix(items, [item], k);
        FlatPrefix(items, [item], k + 1);
        assert ParsedAt(items, ms, k);
      }
    }
  }

  lemma FlatSnoc(items: seq<Item>, item: Item)
    ensures FlatTo(items + [item], |items|) == Flat(items)
    ensures Flat(items + [item]) == Flat(items) + Messages(item)
  {
    hide Messages;
    FlatPrefix(items, [item], |items|);
  }

  /** Every transcript can be read as items. */
  lemma ParseAll(ms: seq<Message>) returns (items: seq<Item>)
    ensures Parses(items, ms)
  {
    hide ParsedAt, RoundEnd;
    items := [];
    var i := 0;
    while i < |ms|
      invariant ParsedUpTo(items, ms, i)
      decreases |ms| - i
    {
      var e := RoundEnd(ms, i);
      var item := if e > i then Round(ms[i], ms[i+1..e]) else Plain(ms[i]);
      AddParsed(items, ms, i, item);
      items, i := items + [item], if e > i then e else i + 1;
    }
    assert ms[..i] == ms;
  }

  lemma ReadingExists(ms: seq<Message>)
    ensures exists items :: Parses(items, ms)
  {
    var items := ParseAll(ms);
  }

  /** A transcript read as items. */
  ghost function ItemsOf(ms: seq<Message>): (items: seq<Item>)
    ensures Parses(items, ms)
  {
    ReadingExists(ms);
    var items :| Parses(items, ms); items
  }

  /** A complete round found in the messages is an item. */
  lemma RoundIsItem(items: seq<Item>, ms: seq<Message>, i: nat) returns (k: nat)
    requires Parses(items, ms) && i < |ms| && RoundEnd(ms, i) > i
    ensures k < |items| && items[k].Round? && Off(items, k) == i && Off(items, k + 1) == RoundEnd(ms, i)
    ensures ms[i..RoundEnd(ms, i)] == Messages(items[k])
  {
    hide Messages;
    k := Locate(items, |items|, i);
    assert ParsedAt(items, ms, k);
    ItemAt(items, k);
    if Off(items, k) < i { InsideIsTool(items, ms, k, i); }
  }

  lemma InsideIsTool(items: seq<Item>, ms: seq<Message>, k: nat, i: nat)
    requires Parses(items, ms) && k < |items| && Off(items, k) < i < Off(items, k + 1)
    ensures i < |ms| && ms[i].role == "tool" && RoundEnd(ms, i) == i
  {
    ItemAt(items, k);
    assert ParsedAt(items, ms, k);
  }

  /** What an item of a transcript starts with. */
  lemma RoundOpens(items: seq<Item>, ms: seq<Message>, k: nat)
    requires Parses(items, ms) && k < |items| && items[k].Round?
    ensures items[k].open.role == "assistant" && items[k].open.calls != []
    ensures forall a <- items[k].answers :: a.role == "tool"
    ensures Off(items, k) < |ms| && ms[Off(items, k)] == items[k].open
  {
    hide IsRound, FlatTo, Messages;
    ItemAt(items, k);
    assert ParsedAt(items, ms, k);
    OpenedAndAnswered(ms, Off(items, k), Off(items, k + 1), items[k]);
  }

  lemma OpenedAndAnswered(ms: seq<Message>, lo: nat, hi: nat, item: Item)
    requires lo < hi <= |ms| && item.Round? && ms[lo..hi] == Messages(item) && RoundEnd(ms, lo) == hi
    ensures ms[lo] == item.open && item.open.role == "assistant" && item.open.calls != []
    ensures forall a <- item.answers :: a.role == "tool"
  {
    assert ms[lo..hi][0] == ms[lo];
    forall a | a in item.answers ensures a.role == "tool" {
      var j :| 0 <= j < |item.answers| && item.answers[j] == a;
      assert ms[lo..hi][j+1] == ms[lo+j+1];
    }
  }

  // ---- Rewriting items ----

  /** The messages of items[lo..n]. */
  function Between(items: seq<Item>, lo: nat, n: nat): seq<Message>
    requires lo <= n <= |items|
    decreases n
  {
    if n == lo then [] else Between(items, lo, n - 1) + Messages(items[n-1])
  }

  lemma {:induction false} FlatSplit(items: seq<Item>, lo: nat, n: nat)
    requires lo <= n <= |items|
    ensures FlatTo(items, n) == FlatTo(items, lo) + Between(items, lo, n)
    decreases n - lo
  {
    hide Messages;
    if lo < n { FlatSplit(items, lo, n - 1); }
  }

  lemma {:induction false} BetweenSame(items: seq<Item>, others: seq<Item>, lo: nat, n: nat)
    requires lo <= n <= |items| == |others| && items[lo..n] == others[lo..n]
    ensures Between(items, lo, n) == Between(others, lo, n)
    decreases n - lo
  {
    hide Messages;
    if lo < n {
      assert items[lo..n-1] == items[lo..n][..n-1-lo] && others[lo..n-1] == others[lo..n][..n-1-lo];
      assert items[n-1] == items[lo..n][n-1-lo] == others[n-1];
      BetweenSame(items, others, lo, n - 1);
    }
  }

  lemma {:induction false} FlatSame(items: seq<Item>, others: seq<Item>, n: nat)
    requires n <= |items| == |others| && items[..n] == others[..n]
    ensures FlatTo(items, n) == FlatTo(others, n)
  {
    hide Messages;
    if n > 0 {
      assert items[..n-1] == items[..n][..n-1] && others[..n-1] == others[..n][..n-1];
      assert items[n-1] == items[..n][n-1] == others[n-1];
      FlatSame(items, others, n - 1);
    }
  }

  /** Replacing one item replaces its messages. */
  lemma FlatReplaced(items: seq<Item>, k: nat, item: Item, n: nat)
    requires k < n <= |items|
    ensures FlatTo(items, n) == FlatTo(items, k) + Messages(items[k]) + Between(items, k + 1, n)
    ensures FlatTo(items[k := item], n) == FlatTo(items, k) + Messages(item) + Between(items, k + 1, n)
  {
    hide Messages;
    var others := items[k := item];
    FlatSplit(items, k + 1, n);
    FlatSplit(others, k + 1, n);
    FlatSame(items, others, k);
    assert items[k+1..n] == others[k+1..n];
    BetweenSame(items, others, k + 1, n);
  }

  /** The same in terms of the transcript itself: a splice. */
  lemma Splice(items: seq<Item>, ms: seq<Message>, k: nat, item: Item)
    requires Flat(items) == ms && k < |items|
    ensures Off(items, k) <= Off(items, k + 1) <= |ms|
    ensures Flat(items[k := item]) == ms[..Off(items, k)] + Messages(item) + ms[Off(items, k + 1)..]
  {
    hide Messages;
    FlatReplaced(items, k, item, |items|);
    ItemAt(items, k);
    assert ms[Off(items, k + 1)..] == Between(items, k + 1, |items|);
  }

  /** Offsets up to the replaced item stay; those after it move by the difference in length. */
  lemma OffsetsReplaced(items: seq<Item>, k: nat, item: Item, n: nat)
    requires k < |items| && n <= |items|
    ensures n <= k ==> Off(items[k := item], n) == Off(items, n)
    ensures n > k ==> Off(items[k := item], n) == Off(items, n) - |Messages(items[k])| + |Messages(item)|
  {
    hide Messages;
    if n <= k {
      assert items[..n] == items[k := item][..n];
      FlatSame(items, items[k := item], n);
    } else {
      FlatReplaced(items, k, item, n);
    }
  }

  /** The message that stands for a round: no calls, no tool's. */
  predicate Inert(m: Message) { m.role != "tool" && m.calls == [] }

  /** Putting one message in a round's place leaves every other item what it was. */
  lemma CollapseParses(items: seq<Item>, ms: seq<Message>, k: nat, digest: Message)
    requires Parses(items, ms) && k < |items| && items[k].Round? && Inert(digest)
    ensures Off(items, k) <= Off(items, k + 1) <= |ms|
    ensures var items' := items[k := Plain(digest)];
            Parses(items', Flat(items')) && Flat(items') == ms[..Off(items, k)] + [digest] + ms[Off(items, k + 1)..]
  {
    hide RoundEnd, ParsedAt, Messages, FlatTo;
    var item := Plain(digest);
    var items' := items[k := item];
    var ms' := Flat(items');
    Splice(items, ms, k, item);
    PlainMessages(digest);
    forall j | 0 <= j < |items| ensures ParsedAt(items', ms', j) {
      if j < k {
        ParsedBefore(items, ms, k, digest, j);
      } else if j > k {
        ParsedAfter(items, ms, k, digest, j);
      } else {
        DigestParsed(items, ms, k, digest);
      }
    }
  }

  lemma PlainMessages(m: Message)
    ensures Messages(Plain(m)) == [m]
  {
  }

  lemma DigestParsed(items: seq<Item>, ms: seq<Message>, k: nat, digest: Message)
    requires Parses(items, ms) && k < |items| && Inert(digest)
    ensures var items' := items[k := Plain(digest)]; ParsedAt(items', Flat(items'), k)
  {
    var items' := items[k := Plain(digest)];
    Splice(items, ms, k, Plain(digest));
    OffsetsReplaced(items, k, Plain(digest), k);
    ItemAt(items, k);
    assert Flat(items')[Off(items, k)] == digest;
  }

  lemma ParsedBefore(items: seq<Item>, ms: seq<Message>, k: nat, digest: Message, j: nat)
    requires Parses(items, ms) && j < k < |items| && items[k].Round? && Inert(digest)
    ensures var items' := items[k := Plain(digest)]; ParsedAt(items', Flat(items'), j)
  {
    hide RoundEnd, Messages, FlatTo;
    var items' := items[k := Plain(digest)];
    var ms', cut := Flat(items'), Off(items, k);
    Splice(items, ms, k, Plain(digest));
    PlainMessages(digest);
    RoundOpens(items, ms, k);
    OffsetsReplaced(items, k, Plain(digest), j);
    OffsetsReplaced(items, k, Plain(digest), j + 1);
    FlatGrows(items, j, k);
    assert ms[..cut] == ms'[..cut] && ms'[cut] == digest;
    assert ParsedAt(items, ms, j);
    RoundIsLocal(ms, ms', Off(items, j), cut);
  }

  lemma ParsedAfter(items: seq<Item>, ms: seq<Message>, k: nat, digest: Message, j: nat)
    requires Parses(items, ms) && k < j < |items| && items[k].Round? && Inert(digest)
    ensures var items' := items[k := Plain(digest)]; ParsedAt(items', Flat(items'), j)
  {
    hide RoundEnd, Messages, FlatTo;
    var items' := items[k := Plain(digest)];
    var ms', gone := Flat(items'), |Messages(items[k])| - 1;
    Splice(items, ms, k, Plain(digest));
    PlainMessages(digest);
    ItemAt(items, k);
    OffsetsReplaced(items, k, Plain(digest), j);
    OffsetsReplaced(items, k, Plain(digest), j + 1);
    FlatGrows(items, k + 1, j);
    assert ParsedAt(items, ms, j);
    var i := Off(items, j);
    forall x | i <= x < |ms| ensures SameShape(ms[x], ms'[(i - gone) + x - i]) {
      assert ms'[x - gone] == ms[Off(items, k + 1)..][x - Off(items, k + 1)];
    }
    RoundMoves(ms, ms', i, i - gone);
  }

  /** Changing only contents keeps the reading. */
  lemma ReshapedParses(items: seq<Item>, ms: seq<Message>, items': seq<Item>, ms': seq<Message>)
    requires Parses(items, ms) && Flat(items') == ms' && |items'| == |items| && |ms'| == |ms|
    requires forall k :: 0 <= k < |items| ==> items[k].Round? == items'[k].Round?
    requires forall k :: 0 <= k <= |items| ==> Off(items', k) == Off(items, k)
    requires forall x :: 0 <= x < |ms| ==> SameShape(ms[x], ms'[x])
    ensures Parses(items', ms')
  {
    hide RoundEnd, FlatTo;
    forall k | 0 <= k < |items| ensures ParsedAt(items', ms', k) {
      assert ParsedAt(items, ms, k);
      var i := Off(items, k);
      forall x | i <= x < |ms| ensures SameShape(ms[x], ms'[i + x - i]) { }
      RoundMoves(ms, ms', i, i);
    }
  }
}
