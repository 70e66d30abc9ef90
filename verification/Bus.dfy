/** The per-session event bus: publisher, bounded subscribers, spill queue, writer and recovery
    (internal/bus/bus.go). A method is one step under the bus mutex, or one step of the writer; `*` stands for
    whatever the disk or the scheduler does. */
module EventBus {
  import opened Journal
  import opened Wrappers

  const UNIX_EPOCH: nat := 62135596800

  /** The spill file, and how much of it would survive a power cut. */
  class Disk {
    var file: seq<Envelope>
    var durable: seq<Envelope>

    constructor (file: seq<Envelope>)
      ensures this.file == file && durable == file
    {
      this.file, durable := file, file;
    }
  }

  class SpillWriter {
    const disk: Disk
    ghost const policy: SyncPolicy
    var queue: seq<SpillOp>
    var dirty: bool
    var failed: bool

    constructor (disk: Disk, ghost policy: SyncPolicy)
      ensures this.disk == disk && this.policy == policy && queue == [] && !dirty && !failed
    {
      this.disk, this.policy, queue, dirty, failed := disk, policy, [], false, false;
    }

    ghost predicate Durability()
      reads this, disk
    {
      DurableUpTo(policy, disk.file, disk.durable, dirty, queue)
    }

    /** One turn of the writer's loop. */
    method Step(io: Outcome)
      requires queue != []
      modifies this, disk
      ensures queue == old(queue)[1..] && disk.file == Written(old(disk.file), old(queue)[0], io)
      ensures failed <==> old(failed) || Fails(old(dirty), old(queue)[0], io)
      ensures !failed ==> disk.file == Applied(old(disk.file), old(queue)[0])
      ensures !failed && old(Durability()) ==> Durability()
    {
      var op := queue[0];
      queue := queue[1..];
      if op.rewrite != [] {
        if io.rewritten {
          disk.file, disk.durable, dirty := op.rewrite, op.rewrite, false;
        } else {
          failed := true;
        }
      }
      if op.frame.Some? {
        if io.written {
          disk.file, dirty := disk.file + [op.frame.value], true;
        } else {
          disk.file, failed := io.torn, true;
        }
      }
      if op.sync && dirty {
        if io.synced { disk.durable := disk.file; } else { failed := true; }
        dirty := false;
      }
    }

    /** What a barrier waits for: every operation queued so far. */
    method Drain()
      modifies this, disk
      ensures queue == [] && (old(failed) ==> failed) && (old(queue) == [] ==> unchanged(this) && unchanged(disk))
      ensures !failed ==> disk.file == AppliedAll(old(disk.file), old(queue))
      ensures !failed && old(Durability()) ==> Durability()
    {
      while queue != []
        invariant old(queue) == [] ==> unchanged(this) && unchanged(disk)
        invariant old(failed) ==> failed
        invariant !failed ==> AppliedAll(disk.file, queue) == AppliedAll(old(disk.file), old(queue))
        invariant !failed && old(Durability()) ==> Durability()
        decreases |queue|
      {
        var io: Outcome := *;
        Step(io);
      }
    }

    /** The writer's last act once its channel is closed: whatever the policy, flush what is dirty. */
    method Finish()
      modifies this, disk
      ensures queue == [] && (old(failed) ==> failed) && (old(queue) == [] ==> disk.file == old(disk.file))
      ensures !failed ==> disk.file == AppliedAll(old(disk.file), old(queue))
      ensures !failed && old(Durability()) ==> Durability() && disk.durable == disk.file
    {
      Drain();
      if dirty {
        var synced: bool := *;
        if synced { disk.durable, dirty := disk.file, false; } else { failed := true; }
      }
      var closed: bool := *;
      if !closed { failed := true; }
    }
  }

  class Subscription {
    const after: nat
    const replay: seq<Envelope>
    /** The journal's latest number when this subscription was taken, and whether its replay reaches it. */
    ghost const joined: nat
    ghost const exact: bool
    var events: seq<Envelope>
    ghost var consumed: seq<Envelope>
    var closed: bool
    var slow: bool

    constructor (after: nat, replay: seq<Envelope>, ghost joined: nat, ghost exact: bool)
      ensures this.after == after && this.replay == replay && this.joined == joined && this.exact == exact
      ensures events == consumed == [] && !closed && !slow
    {
      this.after, this.replay, this.joined, this.exact := after, replay, joined, exact;
      events, consumed, closed, slow := [], [], false, false;
    }

    /** What was and will be received is the journal's next events, all of them while the subscription is live. */
    ghost predicate Tracks(base: nat, journal: seq<Envelope>, buffer: nat)
      reads this
    {
      && base <= joined <= base + |journal| && after <= joined
      && |events| <= buffer
      && consumed + events <= journal[joined-base..]
      && (!closed ==> consumed + events == journal[joined-base..])
      && (exact ==> base <= after && replay == journal[after-base..joined-base])
    }

    /** One publish against this subscriber: a buffered send that never waits. */
    method Offer(e: Envelope, buffer: nat, ghost base: nat, ghost before: seq<Envelope>) returns (kept: bool)
      requires !closed && Tracks(base, before, buffer)
      modifies this
      ensures kept == (|old(events)| < buffer) == !closed && consumed == old(consumed)
      ensures if kept then events == old(events) + [e] && slow == old(slow) else slow && events == old(events)
      ensures Tracks(base, before + [e], buffer)
    {
      assert (before + [e])[joined-base..] == before[joined-base..] + [e];
      assert exact ==> (before + [e])[after-base..joined-base] == before[after-base..joined-base];
      kept := |events| < buffer;
      if kept {
        events := events + [e];
        assert consumed + events == old(consumed + events) + [e];
      } else {
        closed, slow := true, true;
      }
    }

    lemma ClosedTracksOn(e: Envelope, buffer: nat, base: nat, before: seq<Envelope>)
      requires closed && Tracks(base, before, buffer)
      ensures Tracks(base, before + [e], buffer)
    {
      assert (before + [e])[joined-base..] == before[joined-base..] + [e];
      assert exact ==> (before + [e])[after-base..joined-base] == before[after-base..joined-base];
    }

    method Receive() returns (e: Envelope)
      requires events != []
      modifies this
      ensures e == old(events)[0] && events == old(events)[1..] && consumed == old(consumed) + [e]
      ensures closed == old(closed) && slow == old(slow)
    {
      e := events[0];
      events, consumed := events[1..], consumed + [e];
    }
  }

  datatype PublishResult =
    Published(envelope: Envelope) | InvalidEvent | SpillFailed | SequenceExhausted | InvalidClock | TooLarge

  datatype SubscribeResult = Subscribed(subscription: Subscription) | CursorAhead | CursorExpired | ReadFailed

  class Bus {
    const c: Config
    const writer: SpillWriter?
    ghost const base: nat
    var open: bool
    var latest: nat
    var lastTime: nat
    var retained: seq<Envelope>
    var retainedSize: nat
    var spillBytes: nat
    var subscribers: set<Subscription>
    ghost var journal: seq<Envelope>
    ghost var window: nat
    ghost var logStart: nat
    ghost var logEnd: nat
    ghost var all: set<Subscription>
    ghost var ended: bool

    ghost function Disks(): set<object> {
      if writer == null then {} else {writer, writer.disk}
    }

    /** The memory side: counters and window are functions of the journal. */
    ghost predicate Remembers()
      reads `latest, `lastTime, `retained, `retainedSize, `journal, `window
    {
      && c.maxEvents > 0
      && IsJournal(base, journal) && (journal == [] ==> base == 0) && OfSession(c.session, journal)
      && latest == base + |journal| && lastTime == LastTime(journal)
      && LongestWithin(c, journal, window)
      && retained == journal[window..] && retainedSize == BytesFrom(c, journal, window)
    }

    /** The disk side, while no disk operation has failed: file and queue hold a log of the first `end` events. */
    ghost predicate SpillsTo(journal: seq<Envelope>, window: nat, end: nat)
      reads `open, `logStart, `spillBytes, Disks()
    {
      && (open ==> writer != null)
      && (writer != null ==> writer.policy == c.policy && (!open ==> writer.queue == []))
      && (writer != null && !writer.failed ==>
            && Spilled(c, journal, window, AppliedAll(writer.disk.file, writer.queue), logStart, end, open, spillBytes)
            && OnDisk(journal, writer.disk.file, writer.queue, end)
            && writer.Durability()
            && (!open ==> writer.disk.durable == writer.disk.file))
    }

    /** The subscriber side. */
    ghost predicate FansOutOf(journal: seq<Envelope>)
      reads `subscribers, `all, all
    {
      && subscribers <= all
      && forall s <- all :: s.Tracks(base, journal, c.buffer) && (s in subscribers <==> !s.closed)
    }

    ghost predicate Valid()
      reads this, Disks(), all
    {
      Remembers() && SpillsTo(journal, window, logEnd) && FansOutOf(journal)
    }

    // ---- Publishing ----

    /** Any error leaves the bus as it was; an accepted event extends the journal by exactly one envelope, which every
        live subscriber receives unless its buffer is full, in which case it is cut off. It is accepted exactly when it
        is valid, the writer is healthy, a number is left, the clock does not run back and the frame is within the
        limits. */
    method Publish(event: Event, now: nat) returns (r: PublishResult)
      requires Valid()
      modifies this, Disks(), subscribers
      ensures Valid() && open == old(open) && all == old(all) && ended == old(ended)
      ensures r.Published? <==> var e := Envelope(old(latest) + 1, now, c.session, event);
        && c.accepts(Envelope(1, UNIX_EPOCH, c.session, event)) && c.accepts(e)
        && old(open ==> writer != null && !writer.failed) && old(latest) != MAX_UINT64
        && now > 0 && now >= old(lastTime)
        && c.frameBytes(e) <= c.maxBytes && c.frameBytes(e) - 1 <= MAX_FRAME
      ensures r.Published? ==>
        && journal == old(journal) + [r.envelope] && r.envelope == Envelope(old(latest) + 1, now, c.session, event)
        && now >= old(lastTime) && c.frameBytes(r.envelope) <= c.maxBytes
        && (open && !writer.failed ==>
          spillBytes <= if c.maxSpillBytes > c.maxBytes then c.maxSpillBytes else c.maxBytes)
        && (writer != null && !open ==> !Honest())
        && Offered(r.envelope, old(subscribers))
      ensures !r.Published? ==> unchanged(this) && unchanged(Disks()) && unchanged(subscribers)
      ensures r.SpillFailed? <==> c.accepts(Envelope(1, UNIX_EPOCH, c.session, event)) && open && old(writer.failed)
      ensures writer != null ==> writer.failed == old(writer.failed)
      ensures r.Published? ==> Queued(r.envelope) && (open ==> logStart == LogAfter(old(logStart)))
      ensures !open ==> logStart == old(logStart) && logEnd == old(logEnd)
    {
      r := Admit(event, now);
      if r.Published? { Commit(r.envelope); }
    }

    /** A valid event, and a writer that has not failed. */
    predicate Probed(event: Event)
      requires open ==> writer != null
      reads `open, writer
    {
      c.accepts(Envelope(1, UNIX_EPOCH, c.session, event)) && (open ==> !writer.failed)
    }

    /** And then a number left and a clock that does not run back. */
    predicate Numbered(event: Event, now: nat)
      requires open ==> writer != null
      reads `open, `latest, `lastTime, writer
    {
      Probed(event) && latest != MAX_UINT64 && now > 0 && now >= lastTime
    }

    /** The checks of Publish, in order. */
    method Admit(event: Event, now: nat) returns (r: PublishResult)
      requires open ==> writer != null
      ensures r.Published? ==>
        && r.envelope == Envelope(latest + 1, now, c.session, event) && now > 0 && now >= lastTime
        && c.frameBytes(r.envelope) <= c.maxBytes && (open ==> !writer.failed)
      ensures r.SpillFailed? <==> c.accepts(Envelope(1, UNIX_EPOCH, c.session, event)) && open && writer.failed
      ensures r.Published? <==> Numbered(event, now) && var e := Envelope(latest + 1, now, c.session, event);
        c.accepts(e) && c.frameBytes(e) <= c.maxBytes && c.frameBytes(e) - 1 <= MAX_FRAME
      ensures r.InvalidClock? <==> Probed(event) && latest != MAX_UINT64 && (now == 0 || now < lastTime)
      ensures r.TooLarge? <==> Numbered(event, now) && var e := Envelope(latest + 1, now, c.session, event);
        c.accepts(e) && (c.frameBytes(e) > c.maxBytes || c.frameBytes(e) - 1 > MAX_FRAME)
      ensures r.InvalidEvent? <==>
        !c.accepts(Envelope(1, UNIX_EPOCH, c.session, event))
            || (Numbered(event, now) && !c.accepts(Envelope(latest + 1, now, c.session, event)))
      ensures r.SequenceExhausted? <==> Probed(event) && latest == MAX_UINT64
    {
      if !c.accepts(Envelope(1, UNIX_EPOCH, c.session, event)) { return InvalidEvent; }
      if open && writer.failed { return SpillFailed; }
      if latest == MAX_UINT64 { return SequenceExhausted; }
      if now == 0 || (lastTime != 0 && now < lastTime) { return InvalidClock; }
      var e := Envelope(latest + 1, now, c.session, event);
      if !c.accepts(e) { return InvalidEvent; }
      var size := c.frameBytes(e);
      if size - 1 > MAX_FRAME || size > c.maxBytes { return TooLarge; }
      r := Published(e);
    }

    /** What is queued for an event: its frame, or the window when the file has outgrown its cap and would shrink. */
    function OpFor(e: Envelope, spilled: nat): SpillOp
      reads `retained, `retainedSize
    {
      var size, sync := c.frameBytes(e), MustSync(c.policy, e.event.etype);
      if spilled + size > c.maxSpillBytes && retainedSize < spilled + size then SpillOp(None, retained, sync)
      else SpillOp(Some(e), [], sync)
    }

    /** Where the log begins after a publish: where it did, unless it is over the file's cap then and the window is
        smaller. */
    ghost function LogAfter(start: nat): nat
      reads `journal, `window
    {
      if start <= |journal| && window <= |journal| && BytesFrom(c, journal, start) > c.maxSpillBytes
        && BytesFrom(c, journal, window) < BytesFrom(c, journal, start)
      then window else start
    }

    /** One publish hands the writer one operation while the bus is open, and never touches the file itself. */
    twostate predicate Queued(e: Envelope)
      reads `open, `retained, `retainedSize, Disks()
    {
      writer != null ==>
        && writer.queue == old(writer.queue) + (if open then [OpFor(e, old(spillBytes))] else [])
        && writer.dirty == old(writer.dirty) && unchanged(writer.disk)
    }

    /** What one publish does to the subscribers that were live before it. */
    twostate predicate Offered(e: Envelope, before: set<Subscription>)
      reads `subscribers, before
    {
      forall s <- before :: s.consumed == old(s.consumed) &&
        if |old(s.events)| < c.buffer then s in subscribers && s.events == old(s.events) + [e]
        else s.closed && s.slow && s.events == old(s.events)
    }

    method Commit(e: Envelope)
      requires Valid() && e.session == c.session && e.number == latest + 1
      requires e.time > 0 && e.time >= lastTime && c.frameBytes(e) <= c.maxBytes
      requires open ==> writer != null && !writer.failed
      modifies this, Disks(), subscribers
      ensures Valid() && open == old(open) && all == old(all) && ended == old(ended)
      ensures journal == old(journal) + [e] && (writer != null && !open ==> !Honest())
      ensures open ==> spillBytes <= if c.maxSpillBytes > c.maxBytes then c.maxSpillBytes else c.maxBytes
      ensures Offered(e, old(subscribers))
      ensures writer != null ==> writer.failed == old(writer.failed)
      ensures Queued(e) && (!open ==> logStart == old(logStart) && logEnd == old(logEnd))
      ensures open ==> logStart == LogAfter(old(logStart))
    {
      hide Remembers, SpillsTo, FansOutOf, OpFor, LogAfter;
      ghost var before := journal;
      Keep(e);
      FanOut(e, before);
    }

    /** Remember the event and hand it to the writer. */
    method Keep(e: Envelope)
      requires Remembers() && SpillsTo(journal, window, logEnd) && e.session == c.session && e.number == latest + 1
      requires e.time > 0 && e.time >= lastTime && c.frameBytes(e) <= c.maxBytes
      requires open ==> writer != null && !writer.failed
      modifies `latest, `lastTime, `retained, `retainedSize, `journal, `window, `logEnd, `spillBytes, `logStart, Disks()
      ensures Remembers() && SpillsTo(journal, window, logEnd)
      ensures journal == old(journal) + [e] && (writer != null && !open ==> !Honest())
      ensures open ==> spillBytes <= if c.maxSpillBytes > c.maxBytes then c.maxSpillBytes else c.maxBytes
      ensures writer != null ==> writer.failed == old(writer.failed)
      ensures Queued(e) && (!open ==> logEnd == old(logEnd))
      ensures logStart == if open then LogAfter(old(logStart)) else old(logStart)
    {
      hide SpillsTo, IsJournal, LongestWithin, OfSession, BytesFrom, OpFor, LogAfter;
      LogInside();
      ghost var before, windowBefore, endBefore := journal, window, logEnd;
      Retain(e);
      Spill(e, before, windowBefore, endBefore);
    }

    lemma LogInside()
      requires SpillsTo(journal, window, logEnd)
      ensures writer != null && !writer.failed ==> logEnd <= |journal|
    {
    }

    /** Append to the window, then drop its oldest events until it is within the limits. */
    method Retain(e: Envelope)
      requires Remembers() && e.session == c.session && e.number == latest + 1
      requires e.time > 0 && e.time >= lastTime && c.frameBytes(e) <= c.maxBytes
      modifies `latest, `lastTime, `retained, `retainedSize, `journal, `window, `logEnd
      ensures Remembers() && journal == old(journal) + [e] && old(window) <= window < |journal|
        && retainedSize <= c.maxBytes
      ensures logEnd == if open then |journal| else old(logEnd)
    {
      hide IsJournal, OfSession, BytesFrom;
      WindowInside(c, journal, window);
      BytesAppend(c, journal, e, window);
      WindowExtends(journal, e, window);
      OutsideStaysOutside(c, journal, e, window);
      JournalExtends(base, journal, e);
      SessionExtends(c.session, journal, e);
      latest, lastTime, retained, retainedSize := e.number, e.time, retained + [e], retainedSize + c.frameBytes(e);
      journal := journal + [e];
      if open { logEnd := |journal|; }
      Trim();
      WindowHoldsLast(c, journal, window);
    }

    method Trim()
      requires window <= |journal| && retained == journal[window..] && retainedSize == BytesFrom(c, journal, window)
      requires forall k :: 0 <= k < window ==> !Within(c, journal, k)
      modifies `retained, `retainedSize, `window
      ensures LongestWithin(c, journal, window) && window >= old(window)
      ensures retained == journal[window..] && retainedSize == BytesFrom(c, journal, window)
    {
      while |retained| > c.maxEvents || retainedSize > c.maxBytes
        invariant old(window) <= window <= |journal|
        invariant retained == journal[window..] && retainedSize == BytesFrom(c, journal, window)
        invariant forall k :: 0 <= k < window ==> !Within(c, journal, k)
        decreases |retained|
      {
        assert !Within(c, journal, window);
        retainedSize, retained := retainedSize - c.frameBytes(retained[0]), retained[1..];
        window := window + 1;
      }
    }

    /** Hand the writer the frame, or the whole window when the file has outgrown its cap and a rewrite would shrink
        it. */
    method Spill(e: Envelope, ghost before: seq<Envelope>, ghost windowBefore: nat, ghost endBefore: nat)
      requires SpillsTo(before, windowBefore, endBefore) && (open ==> !writer.failed)
      requires journal == before + [e] && windowBefore <= window < |journal|
        && logEnd == if open then |journal| else endBefore
      requires retained == journal[window..] && retainedSize == BytesFrom(c, journal, window) <= c.maxBytes
      modifies `spillBytes, `logStart, Disks()
      ensures SpillsTo(journal, window, logEnd)
      ensures open ==> spillBytes <= if c.maxSpillBytes > c.maxBytes then c.maxSpillBytes else c.maxBytes
      ensures writer != null ==> writer.failed == old(writer.failed)
      ensures Queued(e) && logStart == if open then LogAfter(old(logStart)) else old(logStart)
    {
      hide Spilled, OnDisk, LogAfter, BytesFrom, DurableUpTo;
      if open {
        SpilledAll(before, windowBefore, endBefore);
        EnqueueSpill(e, before, windowBefore);
      } else if writer != null && !writer.failed {
        ClosedLogStays(c, before, e, windowBefore, window, AppliedAll(writer.disk.file, writer.queue),
                       logStart, endBefore, spillBytes);
        DiskStays(before, e, writer.disk.file, endBefore);
      }
    }

    lemma SpilledAll(journal: seq<Envelope>, window: nat, end: nat)
      requires SpillsTo(journal, window, end) && open && !writer.failed
      ensures end == |journal|
    {
    }

    method EnqueueSpill(e: Envelope, ghost before: seq<Envelope>, ghost windowBefore: nat)
      requires open && writer != null && writer.policy == c.policy
      requires journal == before + [e] && windowBefore <= window < |journal|
      requires retained == journal[window..] && retainedSize == BytesFrom(c, journal, window) <= c.maxBytes
      requires Spilled(c, before, windowBefore, AppliedAll(writer.disk.file, writer.queue), logStart, |before|, true,
        spillBytes)
      requires writer.Durability() && OnDisk(before, writer.disk.file, writer.queue, |before|)
      modifies `spillBytes, `logStart, writer`queue
      ensures Spilled(c, journal, window, AppliedAll(writer.disk.file, writer.queue), logStart, |journal|, true,
        spillBytes)
      ensures spillBytes <= if c.maxSpillBytes > c.maxBytes then c.maxSpillBytes else c.maxBytes
      ensures writer.Durability() && OnDisk(journal, writer.disk.file, writer.queue, |journal|)
      ensures writer.queue == old(writer.queue) + [OpFor(e, old(spillBytes))] && logStart == LogAfter(old(logStart))
    {
      hide Spilled, OnDisk, BytesFrom, DurableUpTo, AppliedAll, MustSync, QueueFrom;
      var disk := writer.disk;
      DurableQueued(c.policy, disk.file, disk.durable, writer.dirty, writer.queue, OpFor(e, spillBytes));
      LogBytes(c, before, windowBefore, AppliedAll(writer.disk.file, writer.queue), logStart, spillBytes, e);
      var size, sync := c.frameBytes(e), MustSync(c.policy, e.event.etype);
      if spillBytes + size > c.maxSpillBytes && retainedSize < spillBytes + size {
        QueueRewrite(c, journal, window, writer.disk.file, writer.queue, sync);
        assert IsStretch(journal, retained, window, |before| + 1);
        DiskQueueGrows(before, e, writer.disk.file, writer.queue, SpillOp(None, retained, sync));
        writer.queue := writer.queue + [SpillOp(None, retained, sync)];
        spillBytes, logStart := retainedSize, window;
      } else {
        QueueFrame(c, before, e, windowBefore, window, writer.disk.file, writer.queue, logStart, spillBytes, sync);
        DiskQueueGrows(before, e, writer.disk.file, writer.queue, SpillOp(Some(e), [], sync));
        writer.queue := writer.queue + [SpillOp(Some(e), [], sync)];
        spillBytes := spillBytes + size;
      }
    }

    /** Offer the envelope to every live subscriber without waiting for any of them. */
    method FanOut(e: Envelope, ghost before: seq<Envelope>)
      requires journal == before + [e] && FansOutOf(before)
      modifies `subscribers, subscribers
      ensures FansOutOf(journal) && Offered(e, old(subscribers))
    {
      forall s | s in all && s.closed ensures s.Tracks(base, journal, c.buffer) {
        s.ClosedTracksOn(e, c.buffer, base, before);
      }
      var todo := subscribers;
      while todo != {}
        invariant todo <= subscribers <= old(subscribers) <= all
        invariant forall s <- todo :: unchanged(s)
        invariant forall s <- all :: s in subscribers <==> !s.closed
        invariant forall s <- all - todo :: s.Tracks(base, journal, c.buffer)
        invariant forall s <- old(subscribers) - todo :: s.consumed == old(s.consumed) &&
                    if |old(s.events)| < c.buffer then s in subscribers && s.events == old(s.events) + [e]
                    else s.closed && s.slow && s.events == old(s.events)
        decreases todo
      {
        var s :| s in todo;
        todo := todo - {s};
        var kept := s.Offer(e, c.buffer, base, before);
        if !kept { subscribers := subscribers - {s}; }
      }
    }

    // ---- Subscribing ----

    /** The cursor can be served from the retained window. */
    predicate InMemory(after: nat)
      reads `latest, `retained
    {
      after <= latest && if retained != [] then after + 1 >= retained[0].number else after == latest
    }

    /** A subscription starts right after `after` when its cursor is in memory or the bus is honest. Otherwise it gets
        what the file yields, which with a writer that has not failed is right exactly when the file still ends where
        the journal does. A cursor older than everything kept is refused; a failed writer is reported while the bus is
        open. */
    method Subscribe(after: nat, readable: bool) returns (r: SubscribeResult)
      requires Valid()
      modifies `subscribers, `all, Disks()
      ensures Valid() && (writer != null && old(writer.failed) ==> writer.failed) && (!open ==> unchanged(Disks()))
      ensures r.CursorAhead? <==> after > latest
      ensures r.Subscribed? ==> var s := r.subscription;
        && fresh(s) && s.after == after && s.joined == latest && s.events == s.consumed == [] && !s.closed
        && subscribers == old(subscribers) + {s} && all == old(all) + {s}
        && (s.exact <==> after >= base && s.replay == journal[after-base..])
      ensures !r.Subscribed? ==> subscribers == old(subscribers) && all == old(all)
      ensures InMemory(after) ==> r.Subscribed? && r.subscription.exact
      ensures r.Subscribed? && Honest() ==> r.subscription.exact
      ensures !InMemory(after) && writer == null ==> !r.Subscribed?
      ensures r.ReadFailed? <==>
        after <= latest && !InMemory(after) && writer != null && (!readable || (open && writer.failed))
      ensures !InMemory(after) && writer != null && r.Subscribed? ==>
        Served(writer.disk.file, after) == Found(r.subscription.replay)
      ensures !InMemory(after) && writer != null && r.CursorExpired? ==> Served(writer.disk.file, after) == Expired
      ensures !InMemory(after) && writer != null && !writer.failed && r.Subscribed? ==>
        (r.subscription.exact <==> logEnd == |journal|)
      ensures !InMemory(after) && writer != null && !writer.failed && r.CursorExpired? ==> after < base + logStart
      ensures !InMemory(after) && writer == null && r.CursorExpired? ==> after < base + window
      ensures r.CursorExpired? && writer != null && !writer.failed && after >= base ==>
        BytesFrom(c, journal, 0) > c.maxSpillBytes
    {
      hide Remembers, SpillsTo, FansOutOf;
      OpenHasWriter();
      if after > latest { return CursorAhead; }
      var read := ReplayAfter(after, readable);
      match read {
        case Expired =>
          KeptWhole();
          r := CursorExpired;
        case Failed => r := ReadFailed;
        case Found(replay) =>
          if open && !writer.failed { SpilledAll(journal, window, logEnd); }
          var s := Register(after, replay);
          r := Subscribed(s);
      }
    }

    lemma KeptWhole()
      requires SpillsTo(journal, window, logEnd)
      ensures writer != null && !writer.failed && logStart > 0 ==> BytesFrom(c, journal, 0) > c.maxSpillBytes
    {
    }

    lemma OpenHasWriter()
      requires SpillsTo(journal, window, logEnd)
      ensures open ==> writer != null
    {
    }

    /** Register for later events, atomically with the replay just taken. */
    method Register(after: nat, replay: seq<Envelope>) returns (s: Subscription)
      requires Remembers() && FansOutOf(journal) && after <= latest
      modifies `subscribers, `all
      ensures FansOutOf(journal) && subscribers == old(subscribers) + {s} && all == old(all) + {s}
      ensures fresh(s) && s.after == after && s.replay == replay && s.joined == latest
      ensures s.events == s.consumed == [] && !s.closed
      ensures s.exact <==> after >= base && replay == journal[after-base..]
    {
      hide IsJournal, LongestWithin, OfSession, BytesFrom;
      ghost var joined := latest;
      assert joined == base + |journal|;
      assert after >= base ==> journal[after-base..joined-base] == journal[after-base..];
      assert journal[joined-base..] == [];
      s := new Subscription(after, replay, latest, after >= base && replay == journal[after-base..]);
      assert s.Tracks(base, journal, c.buffer);
      subscribers, all := subscribers + {s}, all + {s};
    }

    /** The events after a cursor, from the window when they are all there, else from the file. */
    method ReplayAfter(after: nat, readable: bool) returns (r: ReadResult)
      requires Valid() && after <= latest
      modifies Disks()
      ensures SpillsTo(journal, window, logEnd) && (writer != null && old(writer.failed) ==> writer.failed)
      ensures !open ==> unchanged(Disks())
      ensures InMemory(after) ==> after >= base && r == Found(journal[after-base..])
      ensures !InMemory(after) && writer == null ==> r.Expired? && after < base + window
      ensures r.Failed? <==> !InMemory(after) && writer != null && (!readable || (open && writer.failed))
      ensures !InMemory(after) && writer != null && !r.Failed? ==> r == Served(writer.disk.file, after)
      ensures !InMemory(after) && writer != null && !writer.failed && r.Expired? ==> after < base + logStart
      ensures !InMemory(after) && writer != null && !writer.failed && r.Found? ==>
        (after >= base && r.events == journal[after-base..] <==> logEnd == |journal|)
    {
      hide IsJournal, LongestWithin, Spilled, DurableUpTo;
      MemoryBounds(after);
      if InMemory(after) {
        var replay := Filtered(retained, after);
        MemoryReplay(after);
        r := Found(replay);
      } else if writer != null {
        r := ReadSpillAfter(after, readable);
        if !writer.failed && r.Found? { FileReplay(after, r.events); }
      } else {
        r := Expired;
      }
    }

    /** What was read back is the rest of the journal exactly when the file still ends where the journal does. */
    lemma FileReplay(after: nat, events: seq<Envelope>)
      requires Remembers() && SpillsTo(journal, window, logEnd) && writer != null && !writer.failed
        && after < base + window
      requires events == (if base + logStart <= after < base + logEnd then journal[after-base..logEnd] else [])
      requires logEnd > 0 ==> base + logStart <= after
      ensures after >= base && events == journal[after-base..] <==> logEnd == |journal|
    {
      hide IsJournal, LongestWithin, DurableUpTo, OnDisk, OfSession, BytesFrom;
      RestOfJournal(base, journal, logStart, logEnd, window, after, events);
    }

    lemma MemoryBounds(after: nat)
      requires Remembers() && after <= latest
      ensures InMemory(after) <==> after >= base + window
    {
      hide LongestWithin, OfSession;
      WindowInside(c, journal, window);
      if retained != [] { assert retained[0] == journal[window]; }
    }

    lemma MemoryReplay(after: nat)
      requires Remembers() && base + window <= after <= latest
      ensures NumberedAfter(retained, |retained|, after) == journal[after-base..]
    {
      hide LongestWithin, OfSession, IsJournal, NumberedAfter;
      WindowInside(c, journal, window);
      assert retained == journal[window..|journal|];
      assert journal[after-base..] == journal[after-base..|journal|];
      ReadBack(base, journal, window, |journal|, after);
    }

    method Filtered(file: seq<Envelope>, after: nat) returns (found: seq<Envelope>)
      ensures found == NumberedAfter(file, |file|, after)
    {
      found := [];
      for i := 0 to |file|
        invariant found == NumberedAfter(file, i, after)
      {
        if file[i].number > after { found := found + [file[i]]; }
      }
    }

    /** Read the file behind a flush barrier. A gap before its first event is an expired cursor. */
    method ReadSpillAfter(after: nat, readable: bool) returns (r: ReadResult)
      requires Valid() && writer != null && after <= latest
      modifies Disks()
      ensures SpillsTo(journal, window, logEnd) && (old(writer.failed) ==> writer.failed)
        && (!open ==> unchanged(Disks()))
      ensures r.Failed? <==> !readable || (open && writer.failed)
      ensures !r.Failed? ==> r == Served(writer.disk.file, after)
      ensures !writer.failed && r.Expired? ==> after < base + logStart
      ensures !writer.failed && r.Found? ==>
        r.events == (if base + logStart <= after < base + logEnd then journal[after-base..logEnd] else [])
        && (logEnd > 0 ==> base + logStart <= after)
    {
      hide Remembers, SpillsTo, FansOutOf, NumberedAfter;
      if open {
        FlushSpill();
        if writer.failed { return Failed; }
      }
      if !readable { return Failed; }
      var found := Filtered(writer.disk.file, after);
      r := if found != [] && found[0].number > after + 1 then Expired else Found(found);
      if !writer.failed { LogServed(after); }
    }

    /** What the file of a writer with an empty queue and no failure yields. */
    lemma LogServed(after: nat)
      requires Remembers() && SpillsTo(journal, window, logEnd) && writer != null && !writer.failed
        && (open ==> writer.queue == [])
      ensures var r := Served(writer.disk.file, after);
        && (r.Expired? ==> after < base + logStart)
        && (r.Found? ==>
              r.events == if base + logStart <= after < base + logEnd then journal[after-base..logEnd] else [])
        && (r.Found? && logEnd > 0 ==> base + logStart <= after)
    {
      hide LongestWithin, DurableUpTo, IsJournal, NumberedAfter, OnDisk, BytesFrom, OfSession;
      var file := writer.disk.file;
      assert file == journal[logStart..logEnd];
      SpillRead(base, journal, logStart, logEnd, after, NumberedAfter(file, |file|, after));
    }

    method FlushSpill()
      requires SpillsTo(journal, window, logEnd) && open
      modifies Disks()
      ensures SpillsTo(journal, window, logEnd) && writer.queue == [] && (old(writer.failed) ==> writer.failed)
    {
      hide Spilled, OnDisk;
      var barrier := SpillOp(None, [], false);
      AppliedSnoc(writer.disk.file, writer.queue, barrier);
      if !writer.failed {
        DiskBarrier(journal, writer.disk.file, writer.queue, barrier, logEnd);
        StretchDrained(journal, writer.disk.file, writer.queue + [barrier], logEnd);
      }
      assert Applied(AppliedAll(writer.disk.file, writer.queue), barrier) == AppliedAll(writer.disk.file, writer.queue);
      writer.queue := writer.queue + [barrier];
      writer.Drain();
    }

    // ---- Closing ----

    /** Every subscription ends without an error; the writer drains, flushes under every policy, and stops. */
    method Close() returns (ok: bool)
      requires Valid()
      modifies `open, `ended, `subscribers, Disks(), subscribers
      ensures Valid() && !open && ended && subscribers == {}
      ensures forall s <- old(subscribers) ::
        s.closed && s.slow == old(s.slow) && s.events == old(s.events) && s.consumed == old(s.consumed)
      ensures ok <==> (old(open) ==> !writer.failed)
      ensures writer != null && old(writer.failed) ==> writer.failed
      ensures old(open) && ok ==> logEnd == |journal| && writer.disk.durable == writer.disk.file == journal[logStart..]
      ensures !old(open) ==> unchanged(Disks())
      ensures writer != null && old(writer.queue) == [] ==> writer.disk.file == old(writer.disk.file)
    {
      hide IsJournal, LongestWithin, SpillsTo, FansOutOf;
      EndSubscriptions();
      ended := true;
      if !open { return true; }
      OpenHasWriter();
      ok := Stop();
    }

    /** No more events: the writer drains, flushes and stops. */
    method Stop() returns (ok: bool)
      requires SpillsTo(journal, window, logEnd) && open
      modifies `open, Disks()
      ensures SpillsTo(journal, window, logEnd) && !open && ok == !writer.failed && (old(writer.failed) ==> !ok)
      ensures ok ==> logEnd == |journal| && writer.disk.durable == writer.disk.file == journal[logStart..]
      ensures old(writer.queue) == [] ==> writer.disk.file == old(writer.disk.file)
    {
      hide OnDisk, BytesFrom;
      if !writer.failed { StretchDrained(journal, writer.disk.file, writer.queue, logEnd); }
      writer.Finish();
      open := false;
      ok := !writer.failed;
    }

    method EndSubscriptions()
      requires FansOutOf(journal)
      modifies `subscribers, subscribers
      ensures FansOutOf(journal) && subscribers == {}
      ensures forall s <- old(subscribers) ::
        s.closed && s.slow == old(s.slow) && s.events == old(s.events) && s.consumed == old(s.consumed)
    {
      while subscribers != {}
        invariant subscribers <= old(subscribers) && FansOutOf(journal)
        invariant forall s <- subscribers :: unchanged(s)
        invariant forall s <- old(subscribers) - subscribers ::
                    s.closed && s.slow == old(s.slow) && s.events == old(s.events) && s.consumed == old(s.consumed)
        decreases subscribers
      {
        var s :| s in subscribers;
        End(s);
      }
    }

    /** A live subscription ends, without an error. */
    method End(s: Subscription)
      requires FansOutOf(journal) && s in subscribers
      modifies `subscribers, s`closed
      ensures FansOutOf(journal) && subscribers == old(subscribers) - {s} && s.closed
    {
      subscribers := subscribers - {s};
      s.closed := true;
    }

    /** Detach one subscriber, without an error. Repeating it changes nothing. */
    method Unsubscribe(s: Subscription)
      requires Valid() && s in all
      modifies `subscribers, s`closed
      ensures Valid() && subscribers == old(subscribers) - {s} && s.closed
    {
      hide Spilled, IsJournal, LongestWithin;
      if s in subscribers { End(s); }
    }

    /** One turn of the writer's loop, at any moment. */
    method WriterStep(io: Outcome)
      requires Valid() && writer != null && open && writer.queue != []
      modifies Disks()
      ensures Valid() && writer.queue == old(writer.queue)[1..]
      ensures writer.disk.file == Written(old(writer.disk.file), old(writer.queue)[0], io)
      ensures writer.failed <==> old(writer.failed) || Fails(old(writer.dirty), old(writer.queue)[0], io)
    {
      hide IsJournal, LongestWithin, DurableUpTo, Spilled, OnDisk, Applied, Written, Fails;
      if !writer.failed { StretchStep(journal, writer.disk.file, writer.queue, logEnd); }
      writer.Step(io);
    }

    /** A reader takes the next buffered event. */
    method Deliver(s: Subscription) returns (e: Envelope)
      requires Valid() && s in all && s.events != []
      modifies s
      ensures Valid() && e == old(s.events)[0] && s.events == old(s.events)[1..] && s.consumed == old(s.consumed) + [e]
      ensures s.closed == old(s.closed) && s.slow == old(s.slow) && (Honest() <==> old(Honest()))
    {
      hide IsJournal, LongestWithin, DurableUpTo, Spilled;
      ghost var received := s.consumed + s.events;
      e := s.Receive();
      assert s.consumed + s.events == received;
    }

    /** The file can still be trusted to hold what the window has lost: it is being written, or it was closed without a
        failure and nothing was published since. Once lost, this never comes back. */
    ghost predicate Honest()
      reads `open, `journal, `logEnd, Disks()
    {
      writer == null || open || (!writer.failed && logEnd == |journal|)
    }

    // ---- What a caller can rely on between any two steps ----

    /** Replay, events received and events buffered are one contiguous run of the journal, reaching its end while the
        subscription is live. */
    lemma StreamIsContiguous(s: Subscription)
      requires Valid() && s in all && s.exact
      ensures var stream := s.replay + s.consumed + s.events; var from := s.after - base;
              0 <= from && from + |stream| <= |journal| && stream == journal[from..from+|stream|]
              && (!s.closed ==> from + |stream| == |journal|)
    {
      hide Remembers, SpillsTo;
      var received, from, mid := s.consumed + s.events, s.after - base, s.joined - base;
      assert received == journal[mid..][..|received|] == journal[mid..mid+|received|];
      assert journal[from..mid+|received|] == journal[from..mid] + journal[mid..mid+|received|];
      assert s.replay + s.consumed + s.events == s.replay + received;
    }

    /** Every event written up to the last one that had to be synced has reached the platter; under SyncEvery, all. */
    lemma SyncedEventsAreDurable()
      requires Valid() && writer != null && !writer.failed
      ensures forall i :: 0 <= i < |writer.disk.file| && MustSync(c.policy, writer.disk.file[i].event.etype)
                ==> writer.disk.file[..i+1] <= writer.disk.durable
      ensures !writer.dirty || !open || c.policy == SyncEvery ==> writer.disk.durable == writer.disk.file
    {
      hide Remembers, Spilled, FansOutOf;
      var file, durable := writer.disk.file, writer.disk.durable;
      var firstLoose := |durable| < |file| && MustSync(c.policy, file[|durable|].event.etype);
    }

    /** By default a turn that is over and a permission are durable once written, and with them all that came before. */
    lemma TurnBoundariesAreDurable(i: nat)
      requires Valid() && writer != null && !writer.failed && c.policy != SyncNever && i < |writer.disk.file|
      requires var etype := writer.disk.file[i].event.etype;
        c.policy == SyncEvery || etype == "turn.finished" || etype == "turn.cancelled" || "permission." <= etype
      ensures writer.disk.file[..i+1] <= writer.disk.durable
    {
      hide Valid;
      SyncedEventsAreDurable();
    }

    // ---- Opening and recovery ----

    constructor (c: Config, writer: SpillWriter?, ghost base: nat)
      requires c.maxEvents > 0
      ensures this.c == c && this.writer == writer && this.base == base && open == (writer != null)
      ensures latest == lastTime == retainedSize == spillBytes == window == logStart == logEnd == 0
      ensures retained == journal == [] && subscribers == all == {} && !ended
    {
      this.c, this.writer, this.base, open := c, writer, base, writer != null;
      latest, lastTime, retained, retainedSize, spillBytes, subscribers := 0, 0, [], 0, 0, {};
      journal, window, logStart, logEnd, all, ended := [], 0, 0, 0, {}, false;
    }

    /** The state while the file is being replayed: as Remembers, but trusting the file's own numbers. */
    ghost predicate Recovering()
      reads `latest, `lastTime, `retained, `retainedSize, `spillBytes, `journal, `window
    {
      && LongestWithin(c, journal, window)
      && retained == journal[window..] && retainedSize == BytesFrom(c, journal, window)
      && latest == (if journal == [] then 0 else journal[|journal|-1].number) && lastTime == LastTime(journal)
      && OfSession(c.session, journal) && spillBytes == BytesFrom(c, journal, 0)
    }

    /** One recovered envelope; the file's size grows by its line. */
    method Recover(e: Envelope)
      requires Recovering() && e.session == c.session
      modifies `latest, `lastTime, `retained, `retainedSize, `spillBytes, `journal, `window
      ensures Recovering() && journal == old(journal) + [e]
    {
      hide OfSession, BytesFrom, LongestWithin;
      WindowInside(c, journal, window);
      BytesAppend(c, journal, e, 0);
      BytesAppend(c, journal, e, window);
      SessionExtends(c.session, journal, e);
      OutsideStaysOutside(c, journal, e, window);
      latest, lastTime, retained, retainedSize := e.number, e.time, retained + [e], retainedSize + c.frameBytes(e);
      spillBytes := spillBytes + c.frameBytes(e);
      journal := journal + [e];
      Trim();
    }

    /** The whole file, when it can be read and is this session's. */
    method RecoverAll(file: seq<Envelope>, readable: bool) returns (ok: bool)
      requires journal == [] && Recovering()
      modifies `latest, `lastTime, `retained, `retainedSize, `spillBytes, `journal, `window, `logEnd
      ensures ok <==> readable && OfSession(c.session, file)
      ensures ok ==> Recovering() && journal == file && logEnd == |file|
    {
      if !readable { return false; }
      for i := 0 to |file|
        invariant Recovering() && journal == file[..i] && OfSession(c.session, file[..i])
      {
        hide Recovering;
        if file[i].session != c.session {
          assert file[i] in file;
          return false;
        }
        assert file[..i+1] == file[..i] + [file[i]];
        Recover(file[i]);
      }
      assert file[..|file|] == file;
      logEnd := |file|;
      ok := true;
    }

    /** The recovered state is valid when the file is the log a failure-free bus left on the platter. */
    lemma RecoveredIsValid()
      requires Recovering() && base == BaseOf(journal) && IsJournal(base, journal) && c.maxEvents > 0
      requires subscribers == all == {} && open == (writer != null) && logStart == 0 && logEnd == |journal|
      requires writer != null ==>
        && writer.queue == [] && !writer.dirty && !writer.failed && writer.policy == c.policy
        && writer.disk.file == writer.disk.durable == journal
      ensures Valid()
    {
      hide LongestWithin, OfSession;
      WindowInside(c, journal, window);
      assert journal[0..|journal|] == journal;
      assert IsStretch(journal, journal, 0, |journal|);
    }

    /** At every moment the file is one stretch of the journal, and so is what of it would survive a power cut. */
    lemma FileIsStretch() returns (start: nat, durableEnd: nat, end: nat)
      requires Valid() && writer != null && !writer.failed
      ensures IsStretch(journal, writer.disk.file, start, end) && end <= logEnd
      ensures IsStretch(journal, writer.disk.durable, start, durableEnd) && durableEnd <= end
    {
      hide IsJournal, LongestWithin, OfSession, Spilled, IsStretch, QueueFrom;
      start, end :| IsStretch(journal, writer.disk.file, start, end) && QueueFrom(journal, end, writer.queue, logEnd);
      QueueGoesUp(journal, end, writer.queue, logEnd);
      durableEnd := start + |writer.disk.durable|;
      StretchPrefix(journal, writer.disk.file, start, end, writer.disk.durable);
    }
  }

  datatype Options = Options(maxEvents: int, maxBytes: int, buffer: int, maxSpillBytes: int, policy: SyncPolicy)

  function OrDefault(n: int, default: nat): nat {
    if n <= 0 then default else n
  }

  /** Zero limits select the documented defaults. */
  function Configured(session: string, o: Options, frameBytes: Envelope -> nat, accepts: Envelope -> bool): Config {
    Config(session, OrDefault(o.maxEvents, 10_000), OrDefault(o.maxBytes, 8 * 1024 * 1024), OrDefault(o.buffer, 256),
           OrDefault(o.maxSpillBytes, 64 * 1024 * 1024), o.policy, frameBytes, accepts)
  }

  datatype OpenResult = Opened(bus: Bus) | InvalidOptions | RecoveryFailed

  /** New: rebuild the window by replaying the spill file through the same trim, then start a writer behind it. */
  method Open(session: string, o: Options, frameBytes: Envelope -> nat, accepts: Envelope -> bool, disk: Disk?,
              readable: bool) returns (r: OpenResult)
    ensures r.InvalidOptions? <==> o.maxEvents < 0 || o.maxBytes < 0 || o.buffer < 0 || o.maxSpillBytes < 0
    ensures r.RecoveryFailed? <==> !r.InvalidOptions? && disk != null && !(readable && OfSession(session, disk.file))
    ensures r.Opened? ==> var b := r.bus;
      && fresh(b) && b.c == Configured(session, o, frameBytes, accepts) && b.open == (disk != null)
      && b.c.maxEvents == (if o.maxEvents == 0 then 10_000 else o.maxEvents)
      && b.c.maxBytes == (if o.maxBytes == 0 then 8_388_608 else o.maxBytes)
      && b.c.buffer == (if o.buffer == 0 then 256 else o.buffer)
      && b.c.maxSpillBytes == (if o.maxSpillBytes == 0 then 67_108_864 else o.maxSpillBytes)
      && b.subscribers == b.all == {}
      && (disk == null ==> b.writer == null && b.journal == [])
      && (disk != null ==>
        b.writer != null && fresh(b.writer) && b.writer.disk == disk && b.journal == disk.file && !b.writer.failed
        && b.writer.queue == [])
      && b.base == BaseOf(b.journal) && b.Recovering()
      && (disk == null || (disk.durable == disk.file && IsJournal(b.base, disk.file)) ==> b.Valid())
  {
    hide IsJournal;
    if o.maxEvents < 0 || o.maxBytes < 0 || o.buffer < 0 || o.maxSpillBytes < 0 { return InvalidOptions; }
    var c := Configured(session, o, frameBytes, accepts);
    var b: Bus;
    if disk == null {
      b := new Bus(c, null, 0);
      EmptyJournal(c);
    } else {
      var writer := new SpillWriter(disk, c.policy);
      b := new Bus(c, writer, BaseOf(disk.file));
      EmptyJournal(c);
      var ok := b.RecoverAll(disk.file, readable);
      if !ok { return RecoveryFailed; }
    }
    if disk == null || (disk.durable == disk.file && IsJournal(b.base, disk.file)) { b.RecoveredIsValid(); }
    r := Opened(b);
  }

  lemma EmptyJournal(c: Config)
    ensures LongestWithin(c, [], 0) && IsJournal(0, []) && BytesFrom(c, [], 0) == 0
  {
  }

  // ---- Closing and reopening ----

  function OptionsOf(c: Config): Options {
    Options(c.maxEvents, c.maxBytes, c.buffer, c.maxSpillBytes, c.policy)
  }

  /** A suffix of a journal that holds all of its end is a journal of its own, starting later. */
  lemma SuffixIsJournal(base: nat, journal: seq<Envelope>, start: nat)
    requires IsJournal(base, journal) && start <= |journal| && (start < |journal| || (start == 0 && base == 0))
    ensures BaseOf(journal[start..]) == base + start && IsJournal(base + start, journal[start..])
    ensures LastTime(journal[start..]) == LastTime(journal)
  {
  }

  /** Close a bus and open its file again under the same limits: the same window, counters and clock, and a file that
      is wholly durable, however often it was rewritten. */
  method Reopen(b: Bus, readable: bool) returns (r: OpenResult)
    requires b.Valid() && b.open && b.c.maxBytes > 0 && b.c.buffer > 0 && b.c.maxSpillBytes > 0
    modifies b, b.Disks(), b.subscribers
    ensures readable && !b.writer.failed ==> r.Opened? && var n := r.bus;
      && n.Valid() && n.latest == b.latest && n.lastTime == b.lastTime
      && n.retained == b.retained && n.retainedSize == b.retainedSize
      && n.writer != null && n.writer.disk == b.writer.disk && n.writer.disk.durable == n.writer.disk.file
    ensures b.latest == old(b.latest) && b.lastTime == old(b.lastTime) && b.retained == old(b.retained)
  {
    hide IsJournal, LongestWithin, Spilled, DurableUpTo;
    var ok := b.Close();
    var disk := b.writer.disk;
    if ok {
      LogIsSuffix(b);
      SuffixOfSession(b.c.session, b.journal, b.logStart);
    }
    r := Open(b.c.session, OptionsOf(b.c), b.c.frameBytes, b.c.accepts, disk, readable);
    if r.Opened? && ok {
      SameWindow(b, r.bus);
    }
  }

  /** Power fails: what was written but not flushed is gone. The next process finds one stretch of the journal, opens it
      as a valid bus, and has every event that had reached the file and had to be synced. */
  method PowerCut(b: Bus, readable: bool) returns (r: OpenResult, ghost start: nat, ghost end: nat)
    requires b.Valid() && b.writer != null && !b.writer.failed
    requires b.c.maxBytes > 0 && b.c.buffer > 0 && b.c.maxSpillBytes > 0
    modifies b.writer.disk
    ensures IsStretch(b.journal, old(b.writer.disk.durable), start, end)
    ensures readable ==> r.Opened? && var n := r.bus;
      && n.Valid() && n.journal == old(b.writer.disk.durable) && (start < end ==> n.base == b.base + start)
      && forall i :: 0 <= i < |old(b.writer.disk.file)| ==>
           MustSync(b.c.policy, old(b.writer.disk.file)[i].event.etype) ==>
           i < |n.journal| && n.journal[i] == old(b.writer.disk.file)[i]
  {
    hide LongestWithin, Spilled, OnDisk, IsJournal;
    ghost var written;
    start, end, written := b.FileIsStretch();
    b.SyncedEventsAreDurable();
    StretchIsJournal(b.base, b.journal, start, end);
    var disk := b.writer.disk;
    ghost var file := disk.file;
    disk.file := disk.durable;
    StretchOfSession(b.c.session, b.journal, disk.file, start, end);
    r := Open(b.c.session, OptionsOf(b.c), b.c.frameBytes, b.c.accepts, disk, readable);
    assert forall i :: 0 <= i < |file| && MustSync(b.c.policy, file[i].event.etype) ==> file[..i+1] <= disk.durable;
  }

  /** Any stretch of a journal is a journal of its own. */
  lemma StretchIsJournal(base: nat, journal: seq<Envelope>, start: nat, end: nat)
    requires IsJournal(base, journal) && start <= end <= |journal|
    ensures var part := journal[start..end];
            BaseOf(part) == (if start < end then base + start else 0) && IsJournal(BaseOf(part), part)
  {
  }

  lemma StretchOfSession(session: string, journal: seq<Envelope>, file: seq<Envelope>, start: nat, end: nat)
    requires OfSession(session, journal) && IsStretch(journal, file, start, end)
    ensures OfSession(session, file)
  {
  }

  lemma SuffixOfSession(session: string, journal: seq<Envelope>, start: nat)
    requires OfSession(session, journal) && start <= |journal|
    ensures OfSession(session, journal[start..])
  {
  }

  lemma LogIsSuffix(b: Bus)
    requires b.Valid() && b.writer != null && !b.writer.failed && !b.open && b.logEnd == |b.journal|
    ensures b.logStart <= b.window <= |b.journal|
      && b.writer.disk.file == b.writer.disk.durable == b.journal[b.logStart..]
    ensures BaseOf(b.writer.disk.file) == b.base + b.logStart && IsJournal(b.base + b.logStart, b.writer.disk.file)
  {
    hide IsJournal, LongestWithin, OfSession, OnDisk, BytesFrom;
    SuffixIsJournal(b.base, b.journal, b.logStart);
  }

  lemma SameWindow(b: Bus, n: Bus)
    requires b.Remembers() && n.Remembers() && n.c == b.c && b.logStart <= b.window <= |b.journal|
    requires n.journal == b.journal[b.logStart..] && n.base == b.base + b.logStart
    requires b.logStart < |b.journal| || b.logStart == 0
    ensures n.latest == b.latest && n.lastTime == b.lastTime && n.retained == b.retained
      && n.retainedSize == b.retainedSize
  {
    hide IsJournal, LongestWithin, BytesFrom, OfSession;
    SuffixIsJournal(b.base, b.journal, b.logStart);
    WindowOfSuffix(b.c, b.journal, b.logStart, b.window, n.window);
    BytesOfSuffix(b.c, b.journal, b.logStart, n.window);
  }
}
