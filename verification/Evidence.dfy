/** Excerpts that fit a byte budget (internal/engine/compact_rounds.go, internal/engine/context_briefing.go).
    A string is a sequence of bytes. */
module Evidence {
  import opened Wrappers
  import opened Decimals
  import Utf8

  function ExcerptMarker(): (marker: string)
    ensures |marker| == 50
  {
    "\n[excerpt;" + " full text" + " retained " + "in session" + " history]\n"
  }

  // ---- One excerpt ----

  function CutBack(value: string, head: nat): (cut: nat)
    requires head < |value|
    ensures cut <= head && (cut == 0 || Utf8.RuneStart(value[cut]))
    ensures forall i :: cut < i <= head ==> !Utf8.RuneStart(value[i])
  {
    if head > 0 && !Utf8.RuneStart(value[head]) then CutBack(value, head - 1) else head
  }

  function CutForward(value: string, tail: nat): (cut: nat)
    requires tail <= |value|
    ensures tail <= cut <= |value| && (cut == |value| || Utf8.RuneStart(value[cut]))
    ensures forall i :: tail <= i < cut ==> !Utf8.RuneStart(value[i])
    decreases |value| - tail
  {
    if tail < |value| && !Utf8.RuneStart(value[tail]) then CutForward(value, tail + 1) else tail
  }

  /** Both ends of a text around the excerpt marker. */
  function Excerpt(value: string, limit: int): string {
    if |value| <= limit || limit < 80 then value
    else
      var head := (limit - |ExcerptMarker()|) / 2;
      var tail := |value| - (limit - |ExcerptMarker()| - head);
      value[..CutBack(value, head)] + ExcerptMarker() + value[CutForward(value, tail)..]
  }

  lemma ExcerptIs(value: string, limit: int)
    ensures if |value| <= limit || limit < 80 then Excerpt(value, limit) == value
            else
              var head := (limit - |ExcerptMarker()|) / 2;
              var tail := |value| - (limit - |ExcerptMarker()| - head);
              Excerpt(value, limit) ==
                  value[..CutBack(value, head)] + ExcerptMarker() + value[CutForward(value, tail)..]
  {
    hide ExcerptMarker;
  }

  method ShortenEvidence(value: string, limit: int) returns (r: string)
    ensures r == Excerpt(value, limit)
  {
    hide ExcerptMarker, Utf8.RuneStart, Excerpt;
    ExcerptIs(value, limit);
    if |value| <= limit || limit < 80 { return value; }
    var head := (limit - |ExcerptMarker()|) / 2;
    var tail := |value| - (limit - |ExcerptMarker()| - head);
    ghost var head0, tail0 := head, tail;
    while head > 0 && !Utf8.RuneStart(value[head])
      invariant 0 <= head <= head0 && CutBack(value, head) == CutBack(value, head0)
    {
      head := head - 1;
    }
    while tail < |value| && !Utf8.RuneStart(value[tail])
      invariant tail0 <= tail <= |value| && CutForward(value, tail) == CutForward(value, tail0)
    {
      tail := tail + 1;
    }
    assert head == CutBack(value, head0) && tail == CutForward(value, tail0);
    return value[..head] + ExcerptMarker() + value[tail..];
  }

  /** An excerpt is within its limit unless the limit is too small to excerpt at all; and what is longer than a real
      limit gets strictly shorter. */
  lemma ExcerptFits(value: string, limit: int)
    ensures |Excerpt(value, limit)| <= limit <==> limit >= 80 || |value| <= limit
    ensures |Excerpt(value, limit)| <= |value|
    ensures |Excerpt(value, limit)| < |value| <==> limit >= 80 && |value| > limit
  {
    hide ExcerptMarker;
  }

  /** An excerpt opens as the text opens and closes as it closes. Half of the room beside the marker goes to each end,
      up to the nearest characters; in valid text at most three bytes are lost at each. */
  lemma ExcerptKeepsEnds(value: string, limit: int) returns (h: nat, t: nat)
    ensures |value| <= limit || limit < 80 ==> Excerpt(value, limit) == value
    ensures |value| > limit >= 80 ==>
      && h <= t <= |value| && Excerpt(value, limit) == value[..h] + ExcerptMarker() + value[t..]
      && CutsNear(value, (limit - 50) / 2, h, |value| - (limit - 50 - (limit - 50) / 2), t)
      && (Utf8.Valid(value) ==> |Excerpt(value, limit)| >= limit - 6)
  {
    hide ExcerptMarker, Utf8.Valid, CutsNear, Excerpt;
    ExcerptIs(value, limit);
    h, t := 0, 0;
    if |value| > limit >= 80 {
      var head, tail := (limit - 50) / 2, |value| - (limit - 50 - (limit - 50) / 2);
      h, t := CutBack(value, head), CutForward(value, tail);
      BothCuts(value, head, tail);
    }
  }

  lemma BothCuts(value: string, head: nat, tail: nat)
    requires head < |value| && tail < |value|
    ensures var h, t := CutBack(value, head), CutForward(value, tail);
            && h <= head && tail <= t && CutsNear(value, head, h, tail, t)
            && (Utf8.Valid(value) ==> head <= h + 3 && t <= tail + 3)
  {
    hide Utf8.Valid, Utf8.RuneStart;
    if Utf8.Valid(value) {
      CutsAreNear(value, head, CutBack(value, head));
      CutsAreNear(value, tail, CutForward(value, tail));
    }
  }

  /** The last place up to `head`, and the first from `tail` on, where a character starts. */
  ghost predicate CutsNear(value: string, head: nat, h: nat, tail: nat, t: nat) {
    && h <= head < |value| && (h == 0 || Utf8.RuneStart(value[h]))
    && (forall i :: h < i <= head ==> !Utf8.RuneStart(value[i]))
    && tail <= t <= |value| && (t == |value| || Utf8.RuneStart(value[t]))
    && (forall i :: tail <= i < t ==> !Utf8.RuneStart(value[i]))
    && (Utf8.Valid(value) ==> head <= h + 3 && t <= tail + 3)
  }

  /** In valid text the nearest place to cut is at most three bytes away. */
  lemma CutsAreNear(value: string, at: nat, cut: nat)
    requires Utf8.Valid(value) && at < |value| && cut <= |value|
    requires (cut <= at && forall i :: cut < i <= at ==> !Utf8.RuneStart(value[i]))
        || (at <= cut && forall i :: at <= i < cut ==> !Utf8.RuneStart(value[i]))
    ensures at - 3 <= cut <= at + 3
  {
    hide Utf8.RuneStart;
    var q, next := Utf8.RuneAround(value, 0, at, |value|);
  }

  /** Excerpting never breaks a character. */
  lemma ExcerptIsValidUtf8(value: string, limit: int)
    requires Utf8.Valid(value)
    ensures Utf8.Valid(Excerpt(value, limit))
  {
    hide ExcerptMarker, Utf8.Valid, Utf8.RuneStart, Excerpt, CutsNear;
    var h, t := ExcerptKeepsEnds(value, limit);
    if |value| > limit && limit >= 80 {
      var head, tail := (limit - 50) / 2, |value| - (limit - 50 - (limit - 50) / 2);
      NearIsStart(value, head, h, tail, t);
      ValidEnds(value, h, t);
      MarkerIsValid();
      Utf8.ValidConcat(value[..h], ExcerptMarker());
      Utf8.ValidConcat(value[..h] + ExcerptMarker(), value[t..]);
    }
  }

  lemma NearIsStart(value: string, head: nat, h: nat, tail: nat, t: nat)
    requires CutsNear(value, head, h, tail, t)
    ensures h < |value| && (h == 0 || Utf8.RuneStart(value[h])) && t <= |value|
      && (t == |value| || Utf8.RuneStart(value[t]))
  {
    hide Utf8.RuneStart;
  }

  lemma ValidEnds(value: string, h: nat, t: nat)
    requires Utf8.Valid(value) && h <= |value| && t <= |value|
    requires (h == 0 || h == |value| || Utf8.RuneStart(value[h])) && (t == |value| || Utf8.RuneStart(value[t]))
    ensures Utf8.Valid(value[..h]) && Utf8.Valid(value[t..])
  {
    if h > 0 { Utf8.CutAtRuneStart(value, 0, h, |value|); }
    Utf8.CutAtRuneStart(value, 0, t, |value|);
    Utf8.ValidSlice(value, 0, h);
    Utf8.ValidSlice(value, t, |value|);
    assert value[0..h] == value[..h] && value[t..|value|] == value[t..];
  }

  lemma MarkerIsValid()
    ensures Utf8.Valid(ExcerptMarker())
  {
    assert Utf8.Ascii("\n[excerpt;") && Utf8.Ascii(" full text") && Utf8.Ascii(" retained ")
        && Utf8.Ascii("in session") && Utf8.Ascii(" history]\n");
    Utf8.AsciiIsValid(ExcerptMarker(), 0);
  }

  // ---- Rows within a budget ----

  /** strings.Join with newlines, of the first n rows. */
  function JoinedTo(rows: seq<string>, n: nat): string
    requires n <= |rows|
  {
    if n == 0 then "" else if n == 1 then rows[0] else JoinedTo(rows, n - 1) + "\n" + rows[n-1]
  }

  function Join(rows: seq<string>): string {
    JoinedTo(rows, |rows|)
  }

  function TotalTo(rows: seq<string>, n: nat): nat
    requires n <= |rows|
  {
    if n == 0 then 0 else TotalTo(rows, n - 1) + |rows[n-1]|
  }

  function OmittedNotice(omitted: nat, all: nat): string {
    "\n[" + Decimal(omitted) + " of " + Decimal(all) +
    (" evidence rows" + " omitted from this preview; all records remain in session history]\n")
  }

  /** What is read out of a notice. */
  predicate Tells(notice: string, omitted: nat, all: nat) {
    match ReadNumbers(["\n[", " of "], notice)
    case Some(f) => f.numbers == [omitted, all] && " evidence rows" <= f.rest
    case None => false
  }

  lemma NoticeTells(omitted: nat, all: nat)
    ensures Tells(OmittedNotice(omitted, all), omitted, all)
  {
    hide Decimal, ReadNumbers;
    var end := " evidence rows" + " omitted from this preview; all records remain in session history]\n";
    var none := Fields([], end);
    var one := none.(numbers := [all] + none.numbers);
    NoMoreNumbers(end);
    assert " evidence rows" <= end && end[0] == " evidence rows"[0] == ' ';
    NumberReads(" of ", [], all, end, none);
    assert [" of "] + [] == [" of "] && ["\n["] + [" of "] == ["\n[", " of "];
    NumberReads("\n[", [" of "], omitted, " of " + Decimal(all) + end, one);
    assert OmittedNotice(omitted, all) == "\n[" + Decimal(omitted) + (" of " + Decimal(all) + end);
  }

  lemma {:induction false} JoinLength(rows: seq<string>, n: nat)
    requires 0 < n <= |rows|
    ensures |JoinedTo(rows, n)| == TotalTo(rows, n) + n - 1
  {
    if n > 1 { JoinLength(rows, n - 1); } else { assert TotalTo(rows, 0) == 0; }
  }

  lemma {:induction false} JoinBound(rows: seq<string>, n: nat, width: nat)
    requires n <= |rows| && forall row <- rows :: |row| <= width
    ensures |JoinedTo(rows, n)| <= n * (width + 1) && (n > 0 ==> |JoinedTo(rows, n)| + 1 <= n * (width + 1))
  {
    if n > 0 {
      JoinBound(rows, n - 1, width);
      assert rows[n-1] in rows;
      assert n * (width + 1) == (n - 1) * (width + 1) + width + 1;
    }
  }

  lemma NoticeLength(omitted: nat, all: nat)
    requires omitted <= all < 0x8000_0000_0000_0000
    ensures |OmittedNotice(omitted, all)| <= 125
  {
    Int64Length(omitted);
    Int64Length(all);
  }

  function Max(a: int, b: int): int { if a >= b then a else b }

  function Min(a: int, b: int): int { if a <= b then a else b }

  /** Rows from the front and the back, as many of both up to one, and between them a notice of how many are missing. */
  ghost predicate Preview(r: string, short: seq<string>, front: nat, back: nat, notice: string) {
    && front + back < |short| && back <= front <= back + 1
    && Tells(notice, |short| - front - back, |short|)
    && r == Join(short[..front]) + notice + Join(short[|short|-back..])
  }

  /** As many rows of that width as there is certainly room for, besides the notice. */
  ghost predicate Fills(keep: nat, width: nat, budget: int, all: nat) {
    && keep <= all && (keep == 0 || keep * (width + 1) + 160 <= budget)
    && (keep == all || (keep + 1) * (width + 1) + 160 > budget)
  }

  ghost predicate BestPreview(r: string, short: seq<string>, width: nat, budget: int) {
    exists front: nat, back: nat, notice ::
      Preview(r, short, front, back, notice) && Fills(front + back, width, budget, |short|)
  }

  /** How many whole rows there is room for besides the notice. */
  function RoomFor(width: nat, budget: int, all: nat): nat {
    Min(Max(0, (budget - 160) / (width + 1)), all)
  }

  lemma RoomIsFilled(width: nat, budget: int, all: nat)
    ensures Fills(RoomFor(width, budget, all), width, budget, all)
  {
    var w, q := width + 1, (budget - 160) / (width + 1);
    assert q * w <= budget - 160 < q * w + w;
    FilledBy(q, width, budget, all);
  }

  lemma FilledBy(q: int, width: nat, budget: int, all: nat)
    requires var w := width + 1; q * w <= budget - 160 < q * w + w
    ensures Fills(Min(Max(0, q), all), width, budget, all)
  {
    var w, keep := width + 1, Min(Max(0, q), all);
    if keep > 0 { Times(keep, q, w); }
    if keep < all { Times(q + 1, keep + 1, w); }
    assert (q + 1) * w == q * w + w;
  }

  lemma Times(a: int, b: int, w: nat)
    requires a <= b
    ensures a * w <= b * w
  {
    assert b * w - a * w == (b - a) * w >= 0;
  }

  ghost predicate Excerpts(short: seq<string>, rows: seq<string>, width: nat) {
    |short| == |rows| && forall i :: 0 <= i < |rows| ==> short[i] == Excerpt(rows[i], width)
  }

  /** Every row in full if that fits, else every row excerpted if that fits, else both ends and the true count of what
      is missing; never more than the budget. */
  method BoundedEvidence(rows: seq<string>, budget: int) returns (r: string)
    requires |rows| < 0x8000_0000_0000_0000
    ensures rows == [] ==> r == ""
    ensures budget >= 160 ==> |r| <= budget
    ensures rows != [] && |Join(rows)| <= budget ==> r == Join(rows)
    ensures rows != [] && |Join(rows)| > budget ==>
      var width: nat := Max(128, budget / |rows| - 1);
      exists short :: Excerpts(short, rows, width) &&
        if |Join(short)| <= budget then r == Join(short) else BestPreview(r, short, width, budget)
  {
    hide Excerpt, OmittedNotice, JoinedTo, BestPreview;
    EmptyJoin();
    if rows == [] { return ""; }
    var total := |rows| - 1;
    for i := 0 to |rows|
      invariant total == |rows| - 1 + TotalTo(rows, i)
    {
      total := total + |rows[i]|;
    }
    JoinLength(rows, |rows|);
    if total <= budget { return Join(rows); }
    var perRow: nat := Max(128, budget / |rows| - 1);
    var short := ExcerptRows(rows, perRow);
    var full := Join(short);
    if |full| <= budget { return full; }
    r := BothEnds(short, perRow, budget);
  }

  method BothEnds(short: seq<string>, width: nat, budget: int) returns (r: string)
    requires (forall row <- short :: |row| <= width) && |Join(short)| > budget && 0 < |short| < 0x8000_0000_0000_0000
    ensures (budget >= 160 ==> |r| <= budget) && BestPreview(r, short, width, budget)
  {
    hide OmittedNotice, JoinedTo, Tells, Fills;
    var keep := RoomFor(width, budget, |short|);
    var front := (keep + 1) / 2;
    if budget >= 160 { KeepsRoom(short, width, budget, keep); } else { NoRoom(budget, width); }
    r := Join(short[..front]) + OmittedNotice(|short| - keep, |short|) + Join(short[|short|-(keep-front)..]);
    NoticeTells(|short| - keep, |short|);
    RoomIsFilled(width, budget, |short|);
    assert Preview(r, short, front, keep - front, OmittedNotice(|short| - keep, |short|));
  }

  lemma NoRoom(budget: int, width: nat)
    requires budget < 160
    ensures (budget - 160) / (width + 1) <= 0
  {
  }

  lemma EmptyJoin()
    ensures Join([]) == ""
  {
  }

  method ExcerptRows(rows: seq<string>, width: nat) returns (short: seq<string>)
    requires width >= 80
    ensures Excerpts(short, rows, width) && forall row <- short :: |row| <= width
  {
    short := [];
    for i := 0 to |rows|
      invariant |short| == i && forall k :: 0 <= k < i ==> short[k] == Excerpt(rows[k], width) && |short[k]| <= width
    {
      var s := ShortenEvidence(rows[i], width);
      ExcerptFits(rows[i], width);
      short := short + [s];
    }
  }

  /** The kept rows and the notice fit, and at least one row is missing. */
  lemma KeepsRoom(short: seq<string>, width: nat, budget: int, keep: nat)
    requires forall row <- short :: |row| <= width
    requires budget >= 160 && |Join(short)| > budget && |short| < 0x8000_0000_0000_0000
    requires keep == RoomFor(width, budget, |short|)
    ensures keep < |short|
    ensures var front := (keep + 1) / 2;
            |Join(short[..front])| + |OmittedNotice(|short| - keep, |short|)| +
                |Join(short[|short|-(keep-front)..])| <= budget
  {
    hide OmittedNotice, JoinedTo, Join;
    var w, q := width + 1, (budget - 160) / (width + 1);
    PartBound(short, 0, |short|, width);
    assert short[0..|short|] == short;
    Quotient(budget - 160, w, q, |short|, budget);
    var front := (keep + 1) / 2;
    PartBound(short, 0, front, width);
    PartBound(short, |short| - (keep - front), |short|, width);
    assert short[0..front] == short[..front] && short[|short|-(keep-front)..|short|] == short[|short|-(keep-front)..];
    NoticeLength(|short| - keep, |short|);
    Room(|Join(short[..front])|, |Join(short[|short|-(keep-front)..])|, front, keep, w, budget - 160);
  }

  lemma Room(a: nat, b: nat, front: nat, keep: nat, w: nat, room: int)
    requires front <= keep && a <= front * w && b <= (keep - front) * w && keep * w <= room
    ensures a + b <= room
  {
    assert front * w + (keep - front) * w == keep * w;
  }

  lemma PartBound(rows: seq<string>, lo: nat, hi: nat, width: nat)
    requires lo <= hi <= |rows| && forall row <- rows :: |row| <= width
    ensures |Join(rows[lo..hi])| <= (hi - lo) * (width + 1)
    ensures lo < hi ==> |Join(rows[lo..hi])| + 1 <= (hi - lo) * (width + 1)
  {
    var part := rows[lo..hi];
    forall row | row in part ensures |row| <= width { assert row in rows; }
    JoinBound(part, |part|, width);
  }

  /** The arithmetic of what fits: q whole rows of w bytes are within the room, and n rows would not be. */
  lemma Quotient(room: int, w: nat, q: int, n: nat, budget: int)
    requires w > 0 && 0 <= room <= budget && q == room / w && budget < n * w
    ensures 0 <= q < n && q * w <= room
  {
    assert q * w <= room;
    assert (n - q) * w == n * w - q * w > 0;
  }

  /** Every budget a briefing is given leaves room for the notice. */
  function BriefingBudget(window: int): (budget: nat)
    ensures budget >= 256 && (window > 256 ==> budget == window) && (window <= 0 ==> budget == 32768)
  {
    if window > 0 then Max(256, window) else 32 * 1024
  }
}
