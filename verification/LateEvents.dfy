/** Events published after a bus was closed (internal/bus/bus.go). */
module LateEvents {
  import opened Wrappers
  import opened Journal
  import opened EventBus

  /** A bus that keeps one event in memory, and accepts all. */
  function Small(session: string): Config {
    Configured(session, Limits(), e => 10, e => true)
  }

  function Limits(): Options { Options(1, 100, 1, 1000, SyncNever) }

  /** Closed, with the first `end` events of its journal in the file. */
  ghost predicate ClosedAt(b: Bus, session: string, end: nat)
    reads b, b.Disks(), b.all
  {
    && b.Valid() && b.c == Small(session) && b.base == 0 && b.subscribers == b.all == {}
    && !b.open && b.writer != null && !b.writer.failed && b.logStart == 0 && b.logEnd == end
  }

  method OneThenClosed(session: string, event: Event) returns (b: Bus, closed: bool)
    ensures fresh(b) && b.Valid() && fresh(b.Disks()) && b.base == 0
    ensures closed ==> ClosedAt(b, session, 1) && |b.journal| == 1 && b.lastTime == 1
  {
    hide IsJournal, Bus.SpillsTo, Bus.FansOutOf, LongestWithin;
    var disk := new Disk([]);
    EmptyJournal(Small(session));
    var start := Open(session, Limits(), e => 10, e => true, disk, true);
    b := start.bus;
    var p := b.Publish(event, 1);
    NobodyListens(b);
    closed := b.Close();
    if closed { LogStartsAtZero(b); }
  }

  lemma LogStartsAtZero(b: Bus)
    requires b.Valid() && b.writer != null && !b.writer.failed && b.logEnd == 1
    ensures b.logStart == 0
  {
  }

  lemma NobodyListens(b: Bus)
    requires b.Valid() && b.all == {}
    ensures b.subscribers == {}
  {
  }

  method OneMore(b: Bus, session: string, event: Event, now: nat, ghost end: nat)
    requires ClosedAt(b, session, end) && 0 < now && b.lastTime <= now && |b.journal| < 10
    modifies b, b.Disks()
    ensures ClosedAt(b, session, end) && |b.journal| == |old(b.journal)| + 1 && b.lastTime == now
  {
    hide IsJournal, Bus.SpillsTo, Bus.FansOutOf, LongestWithin;
    var p := b.Publish(event, now);
    NobodyListens(b);
  }

  /** Given one event, closed, and given two more: those reach no file, and a subscription from the beginning is served
      a replay without them, and no error. */
  method PublishAfterClose(session: string, event: Event) returns (b: Bus, closed: bool, r: SubscribeResult)
    ensures closed ==> b.Valid() && b.base == 0 && |b.journal| == 3
    ensures closed ==> r.Subscribed? && r.subscription.after == 0 && r.subscription.replay != b.journal
  {
    hide ClosedAt, Bus.Valid;
    r := CursorAhead;
    b, closed := OneThenClosed(session, event);
    if !closed { return; }
    OneMore(b, session, event, 2, 1);
    OneMore(b, session, event, 3, 1);
    r := FromTheBeginning(b, session);
  }

  method FromTheBeginning(b: Bus, session: string) returns (r: SubscribeResult)
    requires ClosedAt(b, session, 1) && |b.journal| == 3
    modifies b`subscribers, b`all, b.Disks()
    ensures b.Valid() && r.Subscribed? && r.subscription.after == 0 && r.subscription.replay != b.journal
  {
    hide IsJournal, Bus.SpillsTo, Bus.FansOutOf, Bus.Remembers;
    OneInMemory(b);
    r := b.Subscribe(0, true);
    assert b.journal[0..] == b.journal;
  }

  lemma OneInMemory(b: Bus)
    requires b.Remembers() && b.c.maxEvents == 1 && |b.journal| == 3 && b.base == 0
    ensures !b.InMemory(0) && b.latest == 3
  {
    if b.retained != [] { assert b.retained[0] == b.journal[b.window]; }
  }

  // ---- A frame that never reached the file ----

  function Frames(events: seq<Envelope>): seq<SpillOp> {
    seq(|events|, i requires 0 <= i < |events| => SpillOp(Some(events[i]), [], false))
  }

  /** Open, with everything published so far still in the queue. */
  ghost predicate AllQueued(b: Bus, session: string)
    reads b, b.Disks(), b.all
  {
    && b.Valid() && b.c == Small(session) && b.base == 0 && b.subscribers == b.all == {}
    && b.open && b.writer != null && !b.writer.failed
    && b.writer.queue == Frames(b.journal) && b.writer.disk.file == []
  }

  method QueueOne(b: Bus, session: string, event: Event, now: nat)
    requires AllQueued(b, session) && 0 < now && b.lastTime <= now && |b.journal| < 10
    modifies b, b.Disks()
    ensures AllQueued(b, session) && |b.journal| == |old(b.journal)| + 1 && b.lastTime == now
  {
    hide IsJournal, Bus.FansOutOf, LongestWithin, OnDisk;
    TenEach(b.c, b.journal, b.logStart);
    var p := b.Publish(event, now);
    NobodyListens(b);
  }

  lemma {:induction false} TenEach(c: Config, log: seq<Envelope>, i: nat)
    requires i <= |log| && forall e :: c.frameBytes(e) == 10
    ensures BytesFrom(c, log, i) == 10 * (|log| - i)
    decreases |log| - i
  {
    if i < |log| { TenEach(c, log, i + 1); }
  }

  method ThreeQueued(session: string, event: Event) returns (b: Bus)
    ensures fresh(b) && AllQueued(b, session) && fresh(b.Disks()) && |b.journal| == 3
  {
    hide Bus.Valid, IsJournal;
    var disk := new Disk([]);
    EmptyJournal(Small(session));
    var start := Open(session, Limits(), e => 10, e => true, disk, true);
    b := start.bus;
    QueueOne(b, session, event, 1);
    QueueOne(b, session, event, 2);
    QueueOne(b, session, event, 3);
  }

  /** The writer appends the first frame, fails on the second without writing any of it, and appends the third. */
  method SecondFails(b: Bus, session: string)
    requires AllQueued(b, session) && |b.journal| == 3
    modifies b.Disks()
    ensures b.Valid() && b.writer.failed && b.writer.queue == []
    ensures b.writer.disk.file == [b.journal[0], b.journal[2]]
  {
    hide Bus.Remembers, Bus.SpillsTo, Bus.FansOutOf;
    var first := b.writer.queue[0].frame.value;
    b.WriterStep(Outcome(true, true, [], true));
    b.WriterStep(Outcome(true, false, [first], true));
    b.WriterStep(Outcome(true, true, [], true));
  }

  /** Such a file ends where the journal does and shows no gap at its start. Once the bus is closed, which reports the
      failure, a subscription from the beginning is served that file, a replay without the second event, and no
      error. */
  method LostWrite(session: string, event: Event) returns (b: Bus, closed: bool, r: SubscribeResult)
    ensures b.Valid() && b.base == 0 && |b.journal| == 3 && !closed && b.writer != null && b.writer.failed
    ensures r.Subscribed? && r.subscription.after == 0
    ensures r.subscription.replay == [b.journal[0], b.journal[2]] && !r.subscription.exact
  {
    hide Bus.SpillsTo, Bus.FansOutOf, Bus.Remembers, Served, Bus.InMemory, Bus.Honest;
    b := ThreeQueued(session, event);
    SecondFails(b, session);
    closed := b.Close();
    OneInMemory(b);
    SkipsOne(b);
    r := b.Subscribe(0, true);
    assert b.journal[0..] == b.journal;
  }

  lemma SkipsOne(b: Bus)
    requires b.Remembers() && b.base == 0 && |b.journal| == 3
    ensures var file := [b.journal[0], b.journal[2]]; Served(file, 0) == Found(file)
  {
    var file := [b.journal[0], b.journal[2]];
    assert NumberedAfter(file, 1, 0) == [file[0]];
  }
}
