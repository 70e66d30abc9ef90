/** Values of the per-session event journal: envelopes, windows over them, spill operations
    (internal/bus/bus.go). */
module Journal {
  import opened Wrappers
  import opened Slices

  const MAX_UINT64: nat := 0xFFFF_FFFF_FFFF_FFFF
  const MAX_FRAME: nat := 1024 * 1024

  datatype Event = Event(turn: string, etype: string, data: string)

  /** A sequenced event. Time zero is Go's zero time. */
  datatype Envelope = Envelope(number: nat, time: nat, session: string, event: Event)

  datatype SyncPolicy = SyncOnTurnBoundary | SyncNever | SyncEvery

  /** The limits of one bus, with the length of an envelope's line and whether it passes validation. */
  datatype Config = Config(
    session: string, maxEvents: nat, maxBytes: nat, buffer: nat, maxSpillBytes: nat, policy: SyncPolicy,
    frameBytes: Envelope -> nat, accepts: Envelope -> bool)

  predicate MustSync(policy: SyncPolicy, etype: string) {
    match policy
    case SyncEvery => true
    case SyncNever => false
    case SyncOnTurnBoundary => etype == "turn.finished" || etype == "turn.cancelled" || "permission." <= etype
  }

  // ---- Journals and windows ----

  /** Consecutive numbers after `base`; time never zero and never backward. */
  ghost predicate IsJournal(base: nat, journal: seq<Envelope>) {
    && (forall i :: 0 <= i < |journal| ==> journal[i].number == base + 1 + i && journal[i].time > 0)
    && (forall i, j :: 0 <= i < j < |journal| ==> journal[i].time <= journal[j].time)
  }

  predicate OfSession(session: string, journal: seq<Envelope>) {
    forall e <- journal :: e.session == session
  }

  lemma SessionExtends(session: string, journal: seq<Envelope>, e: Envelope)
    requires OfSession(session, journal) && e.session == session
    ensures OfSession(session, journal + [e])
  {
  }

  lemma JournalExtends(base: nat, journal: seq<Envelope>, e: Envelope)
    requires IsJournal(base, journal) && e.number == base + |journal| + 1 && e.time > 0 && e.time >= LastTime(journal)
    ensures IsJournal(base, journal + [e]) && LastTime(journal + [e]) == e.time
  {
  }

  ghost function LastTime(journal: seq<Envelope>): nat {
    if journal == [] then 0 else journal[|journal|-1].time
  }

  /** Bytes of the lines from index i to the end. */
  ghost function BytesFrom(c: Config, log: seq<Envelope>, i: nat): nat
    requires i <= |log|
    decreases |log| - i
  {
    if i == |log| then 0 else c.frameBytes(log[i]) + BytesFrom(c, log, i + 1)
  }

  ghost predicate Within(c: Config, log: seq<Envelope>, i: nat)
    requires i <= |log|
  {
    |log| - i <= c.maxEvents && BytesFrom(c, log, i) <= c.maxBytes
  }

  /** From i on is the longest suffix of the log within both limits. */
  ghost predicate LongestWithin(c: Config, log: seq<Envelope>, i: nat) {
    i <= |log| && Within(c, log, i) && forall k :: 0 <= k < i ==> !Within(c, log, k)
  }

  lemma {:induction false} BytesAppend(c: Config, log: seq<Envelope>, e: Envelope, i: nat)
    requires i <= |log|
    ensures BytesFrom(c, log + [e], i) == BytesFrom(c, log, i) + c.frameBytes(e)
    decreases |log| - i
  {
    if i < |log| {
      BytesAppend(c, log, e, i + 1);
    } else {
      assert BytesFrom(c, log + [e], i + 1) == 0;
    }
  }

  lemma {:induction false} BytesDecrease(c: Config, log: seq<Envelope>, i: nat, j: nat)
    requires i <= j <= |log|
    ensures BytesFrom(c, log, j) <= BytesFrom(c, log, i)
    decreases j - i
  {
    if i < j { BytesDecrease(c, log, i + 1, j); }
  }

  lemma {:induction false} BytesOfSuffix(c: Config, log: seq<Envelope>, from: nat, i: nat)
    requires from + i <= |log|
    ensures BytesFrom(c, log[from..], i) == BytesFrom(c, log, from + i)
    decreases |log| - from - i
  {
    if from + i < |log| { BytesOfSuffix(c, log, from, i + 1); }
  }

  /** What did not fit before an event was appended does not fit after. */
  lemma OutsideStaysOutside(c: Config, log: seq<Envelope>, e: Envelope, i: nat)
    requires LongestWithin(c, log, i)
    ensures forall k :: 0 <= k < i ==> !Within(c, log + [e], k)
  {
    forall k | 0 <= k < i ensures !Within(c, log + [e], k) {
      assert !Within(c, log, k);
      BytesAppend(c, log, e, k);
    }
  }

  lemma WindowInside(c: Config, log: seq<Envelope>, i: nat)
    requires LongestWithin(c, log, i)
    ensures i <= |log|
  {
  }

  /** The window of a suffix that contains the window is that window. */
  lemma WindowOfSuffix(c: Config, log: seq<Envelope>, from: nat, i: nat, j: nat)
    requires LongestWithin(c, log, i) && from <= i && LongestWithin(c, log[from..], j)
    ensures from + j == i
  {
    BytesOfSuffix(c, log, from, j);
    BytesOfSuffix(c, log, from, i - from);
    var atJ, atI := Within(c, log, from + j), Within(c, log[from..], i - from);
  }

  // ---- Spill operations ----

  /** One unit of work for the writer. An empty rewrite is Go's nil: a window handed over is never empty. */
  datatype SpillOp = SpillOp(frame: Option<Envelope>, rewrite: seq<Envelope>, sync: bool)

  function Applied(file: seq<Envelope>, op: SpillOp): seq<Envelope> {
    (if op.rewrite != [] then op.rewrite else file) + (if op.frame.Some? then [op.frame.value] else [])
  }

  /** What the disk does with one operation: which of its parts succeed, and what a failed append leaves. */
  datatype Outcome = Outcome(rewritten: bool, written: bool, torn: seq<Envelope>, synced: bool)

  /** The file after one operation, however it went. A rewrite that fails leaves the file as it was. */
  function Written(file: seq<Envelope>, op: SpillOp, io: Outcome): seq<Envelope> {
    if op.frame.Some? && !io.written then io.torn
    else if io.rewritten then Applied(file, op)
    else Applied(file, op.(rewrite := []))
  }

  /** There is something to flush after one operation was written. */
  predicate Unsynced(dirty: bool, op: SpillOp, io: Outcome) {
    (op.frame.Some? && io.written) || (dirty && !(op.rewrite != [] && io.rewritten))
  }

  predicate Fails(dirty: bool, op: SpillOp, io: Outcome) {
    || (op.rewrite != [] && !io.rewritten)
    || (op.frame.Some? && !io.written)
    || (op.sync && Unsynced(dirty, op, io) && !io.synced)
  }

  /** The file once every queued operation has been applied, first queued first. */
  ghost function AppliedAll(file: seq<Envelope>, ops: seq<SpillOp>): seq<Envelope>
    decreases |ops|
  {
    if ops == [] then file else AppliedAll(Applied(file, ops[0]), ops[1..])
  }

  lemma {:induction false} AppliedSnoc(file: seq<Envelope>, ops: seq<SpillOp>, op: SpillOp)
    ensures AppliedAll(file, ops + [op]) == Applied(AppliedAll(file, ops), op)
    decreases |ops|
  {
    if ops == [] {
      assert [op][1..] == [];
    } else {
      assert (ops + [op])[1..] == ops[1..] + [op];
      AppliedSnoc(Applied(file, ops[0]), ops[1..], op);
    }
  }

  /** The logical log, file and queue together, is one contiguous suffix of the journal's first `end` events; it
      contains the window, it is the whole of them unless the journal has outgrown the file's cap, and `spillBytes` is
      its exact length while the writer is open. */
  ghost predicate Spilled(c: Config, journal: seq<Envelope>, window: nat, log: seq<Envelope>,
                          start: nat, end: nat, open: bool, spillBytes: nat)
  {
    && start <= end <= |journal| && start <= window <= |journal|
    && log == journal[start..end]
    && (end > 0 ==> start < end) && (start > 0 ==> BytesFrom(c, journal, 0) > c.maxSpillBytes)
    && (open ==> end == |journal| && spillBytes == BytesFrom(c, journal, start))
  }

  // ---- The file while operations are still queued ----

  ghost predicate IsStretch(journal: seq<Envelope>, file: seq<Envelope>, start: nat, end: nat) {
    start <= end <= |journal| && file == journal[start..end]
  }

  /** A rewrite that leaves the file ending at `next`: the window as it was then. */
  ghost predicate RewritesTo(journal: seq<Envelope>, rewrite: seq<Envelope>, next: nat) {
    exists w: nat :: w < next && IsStretch(journal, rewrite, w, next)
  }

  /** Where the file ends after an operation that finds it ending at `at`. */
  ghost function NextAt(op: SpillOp, at: nat): nat {
    if op.rewrite != [] || op.frame.Some? then at + 1 else at
  }

  /** Each queued operation is about the journal's next event, from `at` up to `end`. */
  ghost predicate QueueFrom(journal: seq<Envelope>, at: nat, ops: seq<SpillOp>, end: nat)
    decreases |ops|
  {
    if ops == [] then at == end
    else if ops[0].rewrite != [] then
      ops[0].frame.None? && RewritesTo(journal, ops[0].rewrite, at + 1) && QueueFrom(journal, at + 1, ops[1..], end)
    else if ops[0].frame.Some? then
      at < |journal| && ops[0].frame.value == journal[at] && QueueFrom(journal, at + 1, ops[1..], end)
    else QueueFrom(journal, at, ops[1..], end)
  }

  /** The file is one stretch of the journal, and the queue takes it from there to `end`. */
  ghost predicate OnDisk(journal: seq<Envelope>, file: seq<Envelope>, ops: seq<SpillOp>, end: nat) {
    exists s: nat, e: nat :: IsStretch(journal, file, s, e) && QueueFrom(journal, e, ops, end)
  }

  /** The writer's next operation leaves a stretch again. */
  lemma StretchStep(journal: seq<Envelope>, file: seq<Envelope>, ops: seq<SpillOp>, end: nat)
    requires ops != [] && OnDisk(journal, file, ops, end)
    ensures OnDisk(journal, Applied(file, ops[0]), ops[1..], end)
  {
    hide Applied, IsStretch, RewritesTo;
    var s: nat, e: nat :| IsStretch(journal, file, s, e) && QueueFrom(journal, e, ops, end);
    var start := StretchApplied(journal, file, ops[0], s, e);
  }

  lemma StretchApplied(journal: seq<Envelope>, file: seq<Envelope>, op: SpillOp, s: nat, e: nat) returns (start: nat)
    requires IsStretch(journal, file, s, e)
    requires op.rewrite != [] ==> op.frame.None? && RewritesTo(journal, op.rewrite, e + 1)
    requires op.rewrite == [] && op.frame.Some? ==> e < |journal| && op.frame.value == journal[e]
    ensures IsStretch(journal, Applied(file, op), start, NextAt(op, e))
  {
    start := s;
    if op.rewrite != [] {
      var w: nat :| w < e + 1 && IsStretch(journal, op.rewrite, w, e + 1);
      start := w;
    } else if op.frame.Some? {
      assert journal[s..e+1] == journal[s..e] + [journal[e]];
    }
  }

  lemma {:induction false} StretchDrained(journal: seq<Envelope>, file: seq<Envelope>, ops: seq<SpillOp>, end: nat)
    requires OnDisk(journal, file, ops, end)
    ensures OnDisk(journal, AppliedAll(file, ops), [], end)
    decreases |ops|
  {
    hide OnDisk;
    if ops != [] {
      StretchStep(journal, file, ops, end);
      StretchDrained(journal, Applied(file, ops[0]), ops[1..], end);
    }
  }

  lemma {:induction false} QueueGoesUp(journal: seq<Envelope>, at: nat, ops: seq<SpillOp>, end: nat)
    requires QueueFrom(journal, at, ops, end)
    ensures at <= end
    decreases |ops|
  {
    if ops != [] { QueueGoesUp(journal, NextAt(ops[0], at), ops[1..], end); }
  }

  /** An operation about the newest event may join the queue, and a barrier at any time. */
  ghost predicate IsNextOp(journal: seq<Envelope>, op: SpillOp, at: nat) {
    && at < |journal|
    && if op.rewrite != [] then op.frame.None? && RewritesTo(journal, op.rewrite, at + 1)
       else op.frame == Some(journal[at])
  }

  lemma {:induction false} QueueGrows(journal: seq<Envelope>, e: Envelope, at: nat, ops: seq<SpillOp>, op: SpillOp)
    requires QueueFrom(journal, at, ops, |journal|) && IsNextOp(journal + [e], op, |journal|)
    ensures QueueFrom(journal + [e], at, ops + [op], |journal| + 1)
    decreases |ops|
  {
    hide RewritesTo, IsNextOp;
    if ops == [] {
      NextIsQueued(journal + [e], op, at);
    } else {
      assert (ops + [op])[1..] == ops[1..] + [op] && (ops + [op])[0] == ops[0];
      QueueGrows(journal, e, NextAt(ops[0], at), ops[1..], op);
      if ops[0].rewrite != [] { RewriteOfMore(journal, e, ops[0].rewrite, at + 1); }
    }
  }

  lemma NextIsQueued(journal: seq<Envelope>, op: SpillOp, at: nat)
    requires IsNextOp(journal, op, at)
    ensures QueueFrom(journal, at, [] + [op], at + 1)
  {
    hide RewritesTo;
    assert [] + [op] == [op] && [op][1..] == [];
    assert QueueFrom(journal, at + 1, [op][1..], at + 1);
  }

  lemma RewriteOfMore(journal: seq<Envelope>, e: Envelope, rewrite: seq<Envelope>, next: nat)
    requires RewritesTo(journal, rewrite, next)
    ensures RewritesTo(journal + [e], rewrite, next)
  {
    var w: nat :| w < next && IsStretch(journal, rewrite, w, next);
    StretchOfMore(journal, e, rewrite, w, next);
  }

  lemma {:induction false} QueueBarrier(journal: seq<Envelope>, at: nat, ops: seq<SpillOp>, op: SpillOp, end: nat)
    requires QueueFrom(journal, at, ops, end) && op.frame.None? && op.rewrite == []
    ensures QueueFrom(journal, at, ops + [op], end)
    decreases |ops|
  {
    if ops == [] {
      assert QueueFrom(journal, at, [op][1..], end);
    } else {
      assert (ops + [op])[1..] == ops[1..] + [op];
      QueueBarrier(journal, NextAt(ops[0], at), ops[1..], op, end);
    }
  }

  lemma DiskQueueGrows(journal: seq<Envelope>, e: Envelope, file: seq<Envelope>, ops: seq<SpillOp>, op: SpillOp)
    requires OnDisk(journal, file, ops, |journal|) && IsNextOp(journal + [e], op, |journal|)
    ensures OnDisk(journal + [e], file, ops + [op], |journal| + 1)
  {
    hide QueueFrom;
    var s: nat, at: nat :| IsStretch(journal, file, s, at) && QueueFrom(journal, at, ops, |journal|);
    QueueGrows(journal, e, at, ops, op);
    StretchOfMore(journal, e, file, s, at);
  }

  lemma StretchPrefix(journal: seq<Envelope>, file: seq<Envelope>, start: nat, end: nat, part: seq<Envelope>)
    requires IsStretch(journal, file, start, end) && part <= file
    ensures start + |part| <= end && IsStretch(journal, part, start, start + |part|)
  {
    assert part == journal[start..end][..|part|] == journal[start..start+|part|];
  }

  lemma StretchOfMore(journal: seq<Envelope>, e: Envelope, file: seq<Envelope>, s: nat, at: nat)
    requires IsStretch(journal, file, s, at)
    ensures IsStretch(journal + [e], file, s, at)
  {
  }

  lemma DiskBarrier(journal: seq<Envelope>, file: seq<Envelope>, ops: seq<SpillOp>, op: SpillOp, end: nat)
    requires OnDisk(journal, file, ops, end) && op.frame.None? && op.rewrite == []
    ensures OnDisk(journal, file, ops + [op], end)
  {
    hide QueueFrom;
    var s: nat, at: nat :| IsStretch(journal, file, s, at) && QueueFrom(journal, at, ops, end);
    QueueBarrier(journal, at, ops, op, end);
  }

  lemma DiskStays(journal: seq<Envelope>, e: Envelope, file: seq<Envelope>, end: nat)
    requires OnDisk(journal, file, [], end)
    ensures OnDisk(journal + [e], file, [], end)
  {
    var s: nat, at: nat :| IsStretch(journal, file, s, at) && QueueFrom(journal, at, [], end);
    StretchOfMore(journal, e, file, s, at);
  }

  /** Queueing a frame extends the log by it. */
  lemma QueueFrame(c: Config, journal: seq<Envelope>, e: Envelope, window: nat, window': nat,
                   file: seq<Envelope>, queue: seq<SpillOp>, start: nat, spillBytes: nat, sync: bool)
    requires Spilled(c, journal, window, AppliedAll(file, queue), start, |journal|, true, spillBytes)
    requires window <= window' <= |journal|
    ensures Spilled(c, journal + [e], window', AppliedAll(file, queue + [SpillOp(Some(e), [], sync)]), start,
      |journal| + 1,
                    true, spillBytes + c.frameBytes(e))
  {
    AppliedSnoc(file, queue, SpillOp(Some(e), [], sync));
    BytesAppend(c, journal, e, start);
    BytesAppend(c, journal, e, 0);
    assert (journal + [e])[start..|journal|+1] == journal[start..|journal|] + [e];
  }

  /** What a closed writer left is not touched by later events. */
  lemma ClosedLogStays(c: Config, journal: seq<Envelope>, e: Envelope, window: nat, window': nat, log: seq<Envelope>,
                       start: nat, end: nat, spillBytes: nat)
    requires Spilled(c, journal, window, log, start, end, false, spillBytes) && window <= window' <= |journal| + 1
    ensures Spilled(c, journal + [e], window', log, start, end, false, spillBytes)
  {
    BytesAppend(c, journal, e, 0);
    assert (journal + [e])[start..end] == journal[start..end];
  }

  /** The bytes of the log with one more event, and of the whole journal. */
  lemma LogBytes(c: Config, journal: seq<Envelope>, window: nat, log: seq<Envelope>, start: nat, spillBytes: nat,
                 e: Envelope)
    requires Spilled(c, journal, window, log, start, |journal|, true, spillBytes)
    ensures start <= |journal| && BytesFrom(c, journal + [e], start) == spillBytes + c.frameBytes(e)
    ensures BytesFrom(c, journal + [e], 0) >= BytesFrom(c, journal + [e], start)
  {
    BytesAppend(c, journal, e, start);
    BytesDecrease(c, journal + [e], 0, start);
  }

  /** Queueing a rewrite makes the log the window. */
  lemma QueueRewrite(c: Config, journal: seq<Envelope>, window: nat, file: seq<Envelope>, queue: seq<SpillOp>,
    sync: bool)
    requires window < |journal| && BytesFrom(c, journal, 0) > c.maxSpillBytes
    ensures Spilled(c, journal, window, AppliedAll(file, queue + [SpillOp(None, journal[window..], sync)]), window,
      |journal|,
                    true, BytesFrom(c, journal, window))
  {
    AppliedSnoc(file, queue, SpillOp(None, journal[window..], sync));
  }

  /** The window of a journal never loses an event that fits on its own. */
  lemma WindowHoldsLast(c: Config, journal: seq<Envelope>, window: nat)
    requires LongestWithin(c, journal, window) && journal != [] && c.maxEvents > 0
    requires c.frameBytes(journal[|journal|-1]) <= c.maxBytes
    ensures window < |journal|
  {
    assert BytesFrom(c, journal, |journal| - 1) == c.frameBytes(journal[|journal|-1]);
    var last := Within(c, journal, |journal| - 1);
  }

  /** What the platter holds against what was written. */
  ghost predicate DurableUpTo(policy: SyncPolicy, file: seq<Envelope>, durable: seq<Envelope>, dirty: bool,
    queue: seq<SpillOp>)
  {
    && durable <= file
    && (!dirty ==> durable == file)
    && (forall i :: |durable| <= i < |file| ==> !MustSync(policy, file[i].event.etype))
    && (forall op <- queue :: op.frame.Some? ==> op.sync == MustSync(policy, op.frame.value.event.etype))
  }

  lemma DurableQueued(policy: SyncPolicy, file: seq<Envelope>, durable: seq<Envelope>, dirty: bool,
                      queue: seq<SpillOp>, op: SpillOp)
    requires DurableUpTo(policy, file, durable, dirty, queue)
    requires op.frame.Some? ==> op.sync == MustSync(policy, op.frame.value.event.etype)
    ensures DurableUpTo(policy, file, durable, dirty, queue + [op])
  {
    hide MustSync;
  }

  // ---- Reading a contiguous log back ----

  /** The envelopes numbered above `after` among the first n, in file order. */
  function NumberedAfter(file: seq<Envelope>, n: nat, after: nat): seq<Envelope>
    requires n <= |file|
  {
    if n == 0 then []
    else NumberedAfter(file, n - 1, after) + if file[n-1].number > after then [file[n-1]] else []
  }

  datatype ReadResult = Found(events: seq<Envelope>) | Expired | Failed

  /** What a file yields to a cursor: everything numbered above it, unless that begins with a gap. */
  function Served(file: seq<Envelope>, after: nat): ReadResult {
    var found := NumberedAfter(file, |file|, after);
    if found != [] && found[0].number > after + 1 then Expired else Found(found)
  }

  lemma WindowExtends(journal: seq<Envelope>, e: Envelope, window: nat)
    requires window <= |journal|
    ensures (journal + [e])[window..] == journal[window..] + [e]
  {
  }

  /** Consecutive numbers after `from`. */
  ghost predicate NumberedFrom(file: seq<Envelope>, from: nat) {
    forall k :: 0 <= k < |file| ==> file[k].number == from + k + 1
  }

  lemma {:induction false} NumberedAfterAll(file: seq<Envelope>, from: nat, n: nat, after: nat)
    requires NumberedFrom(file, from) && n <= |file| && after <= from
    ensures NumberedAfter(file, n, after) == file[..n]
  {
    if n > 0 { NumberedAfterAll(file, from, n - 1, after); }
  }

  lemma {:induction false} NumberedAfterNone(file: seq<Envelope>, from: nat, n: nat, after: nat)
    requires NumberedFrom(file, from) && n <= |file| && after >= from + n
    ensures NumberedAfter(file, n, after) == []
  {
    if n > 0 { NumberedAfterNone(file, from, n - 1, after); }
  }

  lemma {:induction false} NumberedAfterPart(file: seq<Envelope>, from: nat, n: nat, after: nat)
    requires NumberedFrom(file, from) && n <= |file| && from <= after < from + n
    ensures NumberedAfter(file, n, after) == file[after-from..n]
  {
    if after == from + n - 1 {
      NumberedAfterNone(file, from, n - 1, after);
    } else {
      NumberedAfterPart(file, from, n - 1, after);
    }
    SliceSnoc(file, after - from, n);
  }

  lemma SliceIsNumbered(base: nat, journal: seq<Envelope>, start: nat, end: nat)
    requires IsJournal(base, journal) && start <= end <= |journal|
    ensures NumberedFrom(journal[start..end], base + start)
  {
  }

  /** Filtering a stretch of the journal by number cuts it at the cursor. */
  lemma ReadBack(base: nat, journal: seq<Envelope>, start: nat, end: nat, after: nat)
    requires IsJournal(base, journal) && start <= end <= |journal|
    ensures NumberedAfter(journal[start..end], end - start, after) ==
            if after < base + start then journal[start..end]
            else if after < base + end then journal[after-base..end]
            else []
  {
    hide IsJournal, NumberedAfter, NumberedFrom;
    var file, from := journal[start..end], base + start;
    SliceIsNumbered(base, journal, start, end);
    if after < from {
      NumberedAfterAll(file, from, end - start, after);
    } else if after < base + end {
      NumberedAfterPart(file, from, end - start, after);
      assert file[after-from..end-start] == journal[after-base..end];
    } else {
      NumberedAfterNone(file, from, end - start, after);
    }
  }

  /** Where a journal whose first envelope is this one starts. */
  function BaseOf(file: seq<Envelope>): nat {
    if file == [] || file[0].number == 0 then 0 else file[0].number - 1
  }

  /** What a log yields to a cursor that the window does not hold is the rest of the journal exactly when the log ends
      where the journal does. */
  lemma RestOfJournal(base: nat, journal: seq<Envelope>, start: nat, end: nat, window: nat, after: nat,
                      events: seq<Envelope>)
    requires start <= end <= |journal| && window <= |journal| && after < base + window && (journal == [] ==> base == 0)
    requires events == (if base + start <= after < base + end then journal[after-base..end] else [])
    requires end > 0 ==> base + start <= after
    ensures after >= base && events == journal[after-base..] <==> end == |journal|
  {
    if end == |journal| {
      assert journal[after-base..end] == journal[after-base..];
    } else if after >= base {
      assert |events| < |journal[after-base..]|;
    }
  }

  /** What the check on the first event read back decides. */
  lemma SpillRead(base: nat, journal: seq<Envelope>, start: nat, end: nat, after: nat, found: seq<Envelope>)
    requires IsJournal(base, journal) && start <= end <= |journal|
    requires found == NumberedAfter(journal[start..end], end - start, after)
    ensures found != [] && found[0].number > after + 1 ==> after < base + start
    ensures !(found != [] && found[0].number > after + 1) ==>
              && found == (if base + start <= after < base + end then journal[after-base..end] else [])
              && (start < end ==> base + start <= after)
  {
    ReadBack(base, journal, start, end, after);
  }
}
