/** Draining the journal to an output while it is being written (internal/cli/stream_turn.go). */
module StreamTurn {
  import opened Journal
  import opened EventBus

  /** The turn whose events are streamed. When it is over, `due` is the number of the last event published by then. */
  class Turn {
    var over: bool
    ghost var due: nat

    constructor ()
      ensures !over && due == 0
    {
      over, due := false, 0;
    }

    ghost predicate Runs(b: Bus)
      reads this, b`latest
    {
      over ==> due <= b.latest
    }

    /** The turn returns and closes the channel the drain listens on. */
    method Finish(b: Bus)
      requires !over
      modifies this
      ensures over && due == b.latest
    {
      over, due := true, b.latest;
    }
  }

  /** What other steps may do to a turn: end it once, at a moment in between. */
  twostate predicate TurnOn(turn: Turn, b: Bus)
    reads turn, b`latest
  {
    && turn.Runs(b)
    && (old(turn.over) ==> turn.over && turn.due == old(turn.due))
    && (!old(turn.over) && turn.over ==> turn.due >= old(b.latest))
  }

  /** Unless the bus was closed, this subscription is live or was cut off as slow: nobody else ends it. */
  ghost predicate Held(b: Bus, mine: Subscription)
    reads b`all, b`ended, mine
  {
    mine in b.all && (mine.closed && !mine.slow ==> b.ended)
  }

  /** What else happens between two steps of the drain: any number of publishes, writer turns, other readers joining,
      receiving and leaving, the turn ending and the bus closing. */
  method Interfere(b: Bus, turn: Turn, mine: Subscription)
    requires b.Valid() && mine in b.all && turn.Runs(b)
    modifies b, b.Disks(), b.all, turn
    ensures b.Valid() && old(b.all) <= b.all && fresh(b.all - old(b.all)) && TurnOn(turn, b)
    ensures old(b.journal) <= b.journal && (b.Honest() ==> old(b.Honest()))
    ensures mine.consumed == old(mine.consumed) && (old(Held(b, mine)) ==> Held(b, mine))
  {
    hide Bus.Valid, Bus.Honest;
    var steps: nat := *;
    while steps > 0
      invariant b.Valid() && old(b.all) <= b.all && fresh(b.all - old(b.all)) && TurnOn(turn, b)
      invariant old(b.journal) <= b.journal && (b.Honest() ==> old(b.Honest())) && old(b.latest) <= b.latest
      invariant mine.consumed == old(mine.consumed) && (old(Held(b, mine)) ==> Held(b, mine))
      decreases steps
    {
      var finishes: bool := *;
      if finishes && !turn.over { turn.Finish(b); } else { OtherStep(b, mine); }
      steps := steps - 1;
    }
  }

  method OtherStep(b: Bus, mine: Subscription)
    requires b.Valid() && mine in b.all
    modifies b, b.Disks(), b.all
    ensures b.Valid() && old(b.all) <= b.all && fresh(b.all - old(b.all))
    ensures old(b.journal) <= b.journal && (b.Honest() ==> old(b.Honest())) && old(b.latest) <= b.latest
    ensures mine.consumed == old(mine.consumed) && (old(Held(b, mine)) ==> Held(b, mine))
  {
    hide Bus.Remembers, Bus.SpillsTo, Bus.Numbered, Bus.Queued, Bus.InMemory, Served, Written, Fails;
    LatestIs(b);
    var choice: nat := *;
    match choice {
      case 0 =>
        var event: Event, now: nat := *, *;
        var r := b.Publish(event, now);
      case 1 =>
        var io: Outcome := *;
        if b.writer != null && b.open && b.writer.queue != [] { b.WriterStep(io); }
      case 2 =>
        var after: nat := *;
        var readable: bool := *;
        var r := b.Subscribe(after, readable);
      case 3 =>
        if other: Subscription :| other in b.subscribers && other != mine {
          if other.events != [] { var e := b.Deliver(other); }
        }
      case 4 =>
        if other: Subscription :| other in b.subscribers && other != mine { b.Unsubscribe(other); }
      case _ =>
        var ok := b.Close();
    }
    LatestIs(b);
  }

  lemma LatestIs(b: Bus)
    requires b.Valid()
    ensures b.latest == b.base + |b.journal|
  {
  }

  datatype DrainStatus = Complete | WriteFailed | SubscriptionEnded | Incomplete(why: SubscribeResult) | StillRunning

  // ---- What has been written ----

  /** Every subscription the drain has used began exactly at its cursor. */
  ghost predicate AllExact(subs: seq<Subscription>) {
    forall s <- subs :: s.exact
  }

  /** Then exactly the first n events of the journal have been written. */
  ghost predicate Wrote(b: Bus, subs: seq<Subscription>, written: seq<Envelope>, cursor: nat, n: nat)
    reads b`journal
  {
    AllExact(subs) ==> b.base == 0 && n <= |b.journal| && written == b.journal[..n] && cursor == n
  }

  /** The last of the subscriptions continues where the output stands. */
  ghost predicate Continues(b: Bus, subs: seq<Subscription>, sub: Subscription, cursor: nat)
    reads b`all, b`ended, sub
  {
    && Held(b, sub) && sub.after == cursor && sub.consumed == []
    && subs != [] && subs[|subs|-1] == sub
  }

  /** No subscription went wrong as long as the file is to be trusted. */
  ghost predicate Trusted(b: Bus, subs: seq<Subscription>)
    reads b`open, b`journal, b`logEnd, b.Disks()
  {
    b.Honest() ==> AllExact(subs)
  }

  /** Why a subscription was refused: the cursor is ahead of the journal, or it is no longer in memory and the file, if
      there is one, begins after it or cannot be read. */
  ghost predicate Lost(b: Bus, why: SubscribeResult, cursor: nat)
    reads b, b.Disks()
  {
    && !why.Subscribed? && !b.InMemory(cursor)
    && (why.CursorAhead? <==> cursor > b.latest)
    && (why.CursorExpired? ==> b.writer == null || Served(b.writer.disk.file, cursor) == Expired)
    && (why.ReadFailed? ==> b.writer != null)
  }

  /** Other steps cannot unwrite anything, nor touch what this reader has received. */
  method Pause(b: Bus, turn: Turn, sub: Subscription, ghost subs: seq<Subscription>, ghost written: seq<Envelope>,
               ghost cursor: nat, ghost n: nat)
    requires b.Valid() && sub in b.all && turn.Runs(b) && Wrote(b, subs, written, cursor, n) && Trusted(b, subs)
    modifies b, b.Disks(), b.all, turn
    ensures b.Valid() && old(b.all) <= b.all && fresh(b.all - old(b.all)) && TurnOn(turn, b)
    ensures Wrote(b, subs, written, cursor, n) && Trusted(b, subs)
    ensures old(b.journal) <= b.journal && old(b.latest) <= b.latest
    ensures sub.consumed == old(sub.consumed) && (old(Held(b, sub)) ==> Held(b, sub))
  {
    hide Bus.Valid, Bus.Honest, AllExact;
    LatestIs(b);
    Interfere(b, turn, sub);
    LatestIs(b);
  }

  /** One more frame, the journal's next. */
  lemma WroteNext(b: Bus, subs: seq<Subscription>, written: seq<Envelope>, cursor: nat, n: nat, e: Envelope)
    requires Wrote(b, subs, written, cursor, n)
    requires AllExact(subs) && b.base == 0 ==> n < |b.journal| && e == b.journal[n] && e.number == n + 1
    ensures Wrote(b, subs, written + [e], e.number, n + 1)
  {
    hide AllExact;
    if AllExact(subs) { assert b.journal[..n+1] == b.journal[..n] + [b.journal[n]]; }
  }

  lemma ReplayNext(b: Bus, sub: Subscription, i: nat)
    requires b.Valid() && sub in b.all && i < |sub.replay| && sub.exact && b.base == 0
    ensures sub.after + i < |b.journal| && sub.replay[i] == b.journal[sub.after + i]
      && sub.replay[i].number == sub.after + i + 1
  {
    hide Bus.SpillsTo;
  }

  lemma ReplayEnds(b: Bus, sub: Subscription)
    requires b.Valid() && sub in b.all && sub.exact && b.base == 0
    ensures sub.after + |sub.replay| == sub.joined
  {
    hide Bus.SpillsTo, Bus.Remembers;
  }

  lemma LiveNext(b: Bus, sub: Subscription)
    requires b.Valid() && sub in b.all && sub.events != [] && b.base == 0
    ensures var n := sub.joined + |sub.consumed|;
            n < |b.journal| && sub.events[0] == b.journal[n] && sub.events[0].number == n + 1
  {
    hide Bus.SpillsTo;
    var n := sub.joined + |sub.consumed|;
    assert (sub.consumed + sub.events)[|sub.consumed|] == sub.events[0] == b.journal[sub.joined..][|sub.consumed|];
  }

  /** Nothing is written yet, by a subscription from the beginning. */
  lemma WroteNothing(b: Bus, first: Subscription)
    requires b.Valid() && first in b.all && first.after == 0
    ensures Wrote(b, [first], [], 0, 0)
  {
    hide Bus.SpillsTo, Bus.Remembers;
    assert first in [first];
  }

  lemma WroteCursor(b: Bus, subs: seq<Subscription>, written: seq<Envelope>, cursor: nat, n: nat)
    requires Wrote(b, subs, written, cursor, n)
    ensures Wrote(b, subs, written, cursor, cursor)
  {
  }

  lemma WroteSame(b: Bus, subs: seq<Subscription>, written: seq<Envelope>, cursor: nat, n: nat, m: nat)
    requires Wrote(b, subs, written, cursor, n) && (AllExact(subs) && b.base == 0 ==> n == m)
    ensures Wrote(b, subs, written, cursor, m)
  {
  }

  /** With one more subscription there is one more that may go wrong. */
  lemma WroteMore(b: Bus, subs: seq<Subscription>, next: Subscription, written: seq<Envelope>, cursor: nat, n: nat)
    requires Wrote(b, subs, written, cursor, n)
    ensures Wrote(b, subs + [next], written, cursor, n)
    ensures AllExact(subs + [next]) <==> AllExact(subs) && next.exact
  {
    if AllExact(subs + [next]) {
      assert forall s <- subs :: s in subs + [next];
      assert next in subs + [next];
    }
  }

  // ---- The drain ----

  /** The output takes a frame or refuses it, depending on how many it has taken before. */
  type Output = nat -> bool

  ghost predicate Taken(accepts: Output, written: seq<Envelope>) {
    forall k :: 0 <= k < |written| ==> accepts(k)
  }

  /** There was a next event, and the output refused its frame. */
  ghost predicate Refused(b: Bus, subs: seq<Subscription>, accepts: Output, written: seq<Envelope>)
    reads b`journal
  {
    !accepts(|written|) && (AllExact(subs) && b.base == 0 ==> |written| < |b.journal|)
  }

  lemma RefusedNext(b: Bus, subs: seq<Subscription>, accepts: Output, written: seq<Envelope>, cursor: nat, n: nat)
    requires Wrote(b, subs, written, cursor, n) && !accepts(|written|)
    requires AllExact(subs) && b.base == 0 ==> n < |b.journal|
    ensures Refused(b, subs, accepts, written)
  {
  }

  /** Write the replay of a subscription, one frame at a time; a frame that cannot be written does not move the
      cursor. */
  method WriteReplay(b: Bus, turn: Turn, sub: Subscription, ghost subs: seq<Subscription>, start: seq<Envelope>,
    cursor0: nat, accepts: Output)
    returns (written: seq<Envelope>, cursor: nat, ok: bool)
    requires b.Valid() && turn.Runs(b) && Continues(b, subs, sub, cursor0) && Wrote(b, subs, start, cursor0, cursor0)
      && Trusted(b, subs) && Taken(accepts, start)
    modifies b, b.Disks(), b.all, turn
    ensures b.Valid() && old(b.all) <= b.all && fresh(b.all - old(b.all)) && TurnOn(turn, b)
    ensures Held(b, sub) && sub.consumed == []
    ensures old(b.journal) <= b.journal && old(b.latest) <= b.latest
    ensures Wrote(b, subs, written, cursor, cursor) && Trusted(b, subs) && Taken(accepts, written) && start <= written
    ensures if ok then Wrote(b, subs, written, cursor, sub.joined) && written == start + sub.replay
            else Refused(b, subs, accepts, written)
  {
    hide Bus.Valid, Bus.Honest, Wrote, AllExact, Trusted, Refused;
    written, cursor := start, cursor0;
    LastIsExact(subs, sub);
    for i := 0 to |sub.replay|
      invariant b.Valid() && old(b.all) <= b.all && fresh(b.all - old(b.all)) && TurnOn(turn, b)
      invariant Held(b, sub) && sub.consumed == []
      invariant old(b.journal) <= b.journal && old(b.latest) <= b.latest
      invariant Wrote(b, subs, written, cursor, cursor0 + i) && Trusted(b, subs)
      invariant written == start + sub.replay[..i] && Taken(accepts, written)
    {
      Pause(b, turn, sub, subs, written, cursor, cursor0 + i);
      if AllExact(subs) && b.base == 0 { ReplayNext(b, sub, i); }
      if !accepts(|written|) {
        RefusedNext(b, subs, accepts, written, cursor, cursor0 + i);
        WroteCursor(b, subs, written, cursor, cursor0 + i);
        return written, cursor, false;
      }
      WroteNext(b, subs, written, cursor, cursor0 + i, sub.replay[i]);
      assert sub.replay[..i+1] == sub.replay[..i] + [sub.replay[i]];
      written, cursor := written + [sub.replay[i]], sub.replay[i].number;
    }
    WroteCursor(b, subs, written, cursor, cursor0 + |sub.replay|);
    if AllExact(subs) && b.base == 0 { ReplayEnds(b, sub); }
    WroteSame(b, subs, written, cursor, cursor0 + |sub.replay|, sub.joined);
    assert sub.replay[..|sub.replay|] == sub.replay;
    ok := true;
  }

  lemma LastIsExact(subs: seq<Subscription>, sub: Subscription)
    requires subs != [] && subs[|subs|-1] == sub
    ensures AllExact(subs) ==> sub.exact
  {
    assert sub in subs;
  }

  /** What the passes of a select were spent on: waiting with nothing ready, live events, and new subscriptions. */
  datatype Spent = Spent(waited: nat, received: nat, moved: nat)

  /** The replay, live and resubscribe loop, for `passes` turns of its select. Whatever the rest of the process does
      meanwhile, the output is the journal's first `cursor` events, as long as each subscription began exactly at its
      cursor, which they all did if the file is still to be trusted at the end. A drain that completes does so after the
      turn was over, and has then written every event up to its last subscription, so every event of the turn. One whose
      subscription ended is told so only because the bus was closed, one left incomplete only because its cursor could
      not be served, and a write has failed only if the output refused the frame of the next event. It goes on in every
      other case. */
  method DrainStream(b: Bus, turn: Turn, first: Subscription, passes: nat, accepts: Output)
    returns (written: seq<Envelope>, cursor: nat, status: DrainStatus, ghost subs: seq<Subscription>,
        ghost spent: Spent)
    requires b.Valid() && turn.Runs(b) && Continues(b, [first], first, 0) && (b.Honest() ==> first.exact)
    modifies b, b.Disks(), b.all, turn
    ensures b.Valid() && old(b.journal) <= b.journal && TurnOn(turn, b)
    ensures subs != [] && subs[0] == first && Trusted(b, subs) && Wrote(b, subs, written, cursor, cursor)
    ensures Taken(accepts, written) && spent.received <= |written|
    ensures Justified(b, turn, subs, accepts, written, cursor, status)
    ensures status.StillRunning? ==>
      spent.waited + spent.received + spent.moved == passes && |subs| == 1 + spent.moved
  {
    hide Bus.Valid, Bus.Honest, Wrote, AllExact, Trusted, Taken, Justified;
    var sub: Subscription, left, ok := first, passes, true;
    written, cursor, status, subs, spent := [], 0, StillRunning, [first], Spent(0, 0, 0);
    WroteNothing(b, first);
    FirstTrusted(b, first, accepts);
    while true
      invariant b.Valid() && old(b.all) <= b.all && fresh(b.all - old(b.all)) && TurnOn(turn, b)
      invariant old(b.journal) <= b.journal && old(b.latest) <= b.latest && subs != [] && subs[0] == first
      invariant Continues(b, subs, sub, cursor) && Wrote(b, subs, written, cursor, cursor) && Trusted(b, subs)
      invariant Taken(accepts, written) && spent.received <= |written|
      invariant spent.waited + spent.received + spent.moved == passes - left && |subs| == 1 + spent.moved
      decreases left
    {
      written, cursor, ok := WriteReplay(b, turn, sub, subs, written, cursor, accepts);
      if !ok {
        status := WriteFailed;
        FailedWrite(b, turn, subs, accepts, written, cursor);
        return;
      }
      var next: Subscription?;
      written, cursor, status, next, left, subs, spent :=
        Follow(b, turn, sub, subs, written, cursor, left, accepts, spent);
      if next == null { return; }
      sub := next;
    }
  }

  /** Why a drain has come to this end. */
  ghost predicate Justified(b: Bus, turn: Turn, subs: seq<Subscription>, accepts: Output, written: seq<Envelope>,
                            cursor: nat, status: DrainStatus)
    reads b, b.Disks(), turn, subs
  {
    match status
    case Complete =>
      turn.over && subs != [] && turn.due <= subs[|subs|-1].joined
      && Wrote(b, subs, written, cursor, subs[|subs|-1].joined)
    case WriteFailed => Refused(b, subs, accepts, written)
    case SubscriptionEnded => b.ended && subs != [] && Over(subs[|subs|-1]) && !subs[|subs|-1].slow
    case Incomplete(why) => Lost(b, why, cursor)
    case StillRunning => true
  }

  /** Nothing more will come. */
  ghost predicate Over(sub: Subscription)
    reads sub
  {
    sub.closed && sub.events == []
  }

  lemma FailedWrite(b: Bus, turn: Turn, subs: seq<Subscription>, accepts: Output, written: seq<Envelope>, cursor: nat)
    requires Refused(b, subs, accepts, written)
    ensures Justified(b, turn, subs, accepts, written, cursor, WriteFailed)
  {
  }

  lemma FirstTrusted(b: Bus, first: Subscription, accepts: Output)
    requires b.Honest() ==> first.exact
    ensures Trusted(b, [first]) && Taken(accepts, [])
  {
  }

  /** A new subscription from the cursor, or an error: never one that would skip or repeat an event. */
  method Resubscribe(b: Bus, ghost subs: seq<Subscription>, ghost written: seq<Envelope>, cursor: nat)
    returns (r: SubscribeResult, ghost more: seq<Subscription>)
    requires b.Valid() && Wrote(b, subs, written, cursor, cursor) && Trusted(b, subs)
    modifies b`subscribers, b`all, b.Disks()
    ensures b.Valid() && old(b.all) <= b.all && fresh(b.all - old(b.all))
    ensures Wrote(b, more, written, cursor, cursor) && Trusted(b, more)
    ensures more == if r.Subscribed? then subs + [r.subscription] else subs
    ensures r.Subscribed? ==> Continues(b, more, r.subscription, cursor) && r.subscription.joined == b.latest
    ensures !r.Subscribed? ==> Lost(b, r, cursor)
  {
    hide Bus.Valid, AllExact;
    var readable: bool := *;
    r := b.Subscribe(cursor, readable);
    more := subs;
    if r.Subscribed? {
      WroteMore(b, subs, r.subscription, written, cursor, cursor);
      more := subs + [r.subscription];
    }
  }

  /** Receive the next live event and write it; one that cannot be written does not move the cursor. */
  method WriteLive(b: Bus, sub: Subscription, ghost used: seq<Subscription>, start: seq<Envelope>, cursor0: nat,
    ghost n: nat, accepts: Output)
    returns (written: seq<Envelope>, cursor: nat, ok: bool)
    requires b.Valid() && Held(b, sub) && sub.events != [] && n == sub.joined + |sub.consumed|
    requires Wrote(b, used, start, cursor0, n) && Trusted(b, used) && Taken(accepts, start)
    modifies sub
    ensures b.Valid() && Held(b, sub) && Trusted(b, used) && Taken(accepts, written)
    ensures if ok then written == start + [old(sub.events)[0]] && Wrote(b, used, written, cursor,
        sub.joined + |sub.consumed|)
      else written == start && Wrote(b, used, written, cursor, cursor) && Refused(b, used, accepts, written)
  {
    hide Bus.Valid, Bus.Honest, Wrote, AllExact, Refused;
    written, cursor := start, cursor0;
    if AllExact(used) && b.base == 0 { LiveNext(b, sub); }
    var e := b.Deliver(sub);
    ok := accepts(|written|);
    if !ok {
      RefusedNext(b, used, accepts, written, cursor, n);
      WroteCursor(b, used, written, cursor, n);
      return;
    }
    WroteNext(b, used, written, cursor, n, e);
    written, cursor := written + [e], e.number;
  }

  /** What one pass of the select came to. */
  datatype Pass = Waited | Received | Moved(next: Subscription) | Left(status: DrainStatus)

  /** One pass of the select, after anything else may have happened. It waits only while the turn goes on and the
      subscription is live and has nothing to give. Otherwise a frame is written or refused; or the subscription is
      over, and replaced if it was cut off as slow; or the turn is, and the tail is written. Which of several ready
      cases a select takes is open. */
  method Select(b: Bus, turn: Turn, sub: Subscription, ghost used: seq<Subscription>, start: seq<Envelope>,
    cursor0: nat, accepts: Output)
    returns (pass: Pass, written: seq<Envelope>, cursor: nat, ghost subs: seq<Subscription>)
    requires b.Valid() && turn.Runs(b) && Held(b, sub) && used != [] && used[|used|-1] == sub && Trusted(b, used)
    requires Wrote(b, used, start, cursor0, sub.joined + |sub.consumed|) && Taken(accepts, start)
    modifies b, b.Disks(), b.all, turn
    ensures b.Valid() && old(b.all) <= b.all && fresh(b.all - old(b.all)) && TurnOn(turn, b)
    ensures old(b.journal) <= b.journal && old(b.latest) <= b.latest
    ensures used <= subs && Trusted(b, subs) && Taken(accepts, written) && |written| >= |start|
    ensures !pass.Left? ==> Held(b, sub)
    ensures pass.Waited? || pass.Received? ==>
      subs == used && Wrote(b, subs, written, cursor, sub.joined + |sub.consumed|)
    ensures pass.Moved? || pass.Left? ==> Wrote(b, subs, written, cursor, cursor)
    ensures pass.Waited? ==> written == start && !turn.over && !sub.closed && sub.events == []
    ensures pass.Received? ==> |written| == |start| + 1
    ensures pass.Moved? ==> written == start && subs == used + [pass.next] && Over(sub) && sub.slow
    ensures pass.Moved? ==> Continues(b, subs, pass.next, cursor)
    ensures pass.Left? ==>
      !pass.status.StillRunning? && Justified(b, turn, subs, accepts, written, cursor, pass.status)
  {
    hide Bus.Valid, Bus.Honest, Wrote, AllExact, Trusted, Taken, Lost;
    ghost var n := sub.joined + |sub.consumed|;
    written, cursor, subs := start, cursor0, used;
    Pause(b, turn, sub, used, written, cursor, n);
    var first: bool := *;
    if turn.over && (first || (sub.events == [] && !sub.closed)) {
      WroteCursor(b, used, written, cursor, n);
      var status;
      written, cursor, status, subs := WriteTail(b, turn, sub, used, written, cursor, accepts);
      pass := Left(status);
    } else if sub.events != [] {
      var ok;
      written, cursor, ok := WriteLive(b, sub, used, written, cursor, n, accepts);
      pass := if ok then Received else Left(WriteFailed);
    } else if sub.closed {
      WroteCursor(b, used, written, cursor, n);
      if !sub.slow { return Left(SubscriptionEnded), written, cursor, subs; }
      var r;
      r, subs := Resubscribe(b, used, written, cursor);
      pass := if r.Subscribed? then Moved(r.subscription) else Left(Incomplete(r));
    } else {
      pass := Waited;
    }
  }

  /** The select loop on one subscription, until it ends or is replaced. */
  method Follow(b: Bus, turn: Turn, sub: Subscription, ghost used: seq<Subscription>, start: seq<Envelope>,
    cursor0: nat, passes: nat, accepts: Output, ghost before: Spent)
    returns (written: seq<Envelope>, cursor: nat, status: DrainStatus, next: Subscription?, left: nat,
        ghost subs: seq<Subscription>, ghost spent: Spent)
    requires b.Valid() && turn.Runs(b) && Continues(b, used, sub, sub.after)
      && Wrote(b, used, start, cursor0, sub.joined) && Trusted(b, used) && Taken(accepts, start)
    modifies b, b.Disks(), b.all, turn
    ensures b.Valid() && old(b.all) <= b.all && fresh(b.all - old(b.all)) && TurnOn(turn, b)
    ensures old(b.journal) <= b.journal && old(b.latest) <= b.latest
    ensures used <= subs && Wrote(b, subs, written, cursor, cursor) && Trusted(b, subs) && Taken(accepts, written)
    ensures next != null ==> left < passes && Continues(b, subs, next, cursor) && Over(sub) && sub.slow
    ensures next != null ==> status.StillRunning? && spent.moved == before.moved + 1 && |subs| == |used| + 1
    ensures Justified(b, turn, subs, accepts, written, cursor, status)
    ensures next == null && status.StillRunning? ==> left == 0 && subs == used && spent.moved == before.moved
    ensures status.StillRunning? ==>
      spent.waited + spent.received + spent.moved - before.waited - before.received - before.moved == passes - left
    ensures spent.received - before.received <= |written| - |start|
  {
    hide Bus.Valid, Bus.Honest, Wrote, AllExact, Trusted, Taken, Justified;
    written, cursor, status, next, left, subs, spent := start, cursor0, StillRunning, null, passes, used, before;
    while left > 0
      invariant b.Valid() && old(b.all) <= b.all && fresh(b.all - old(b.all)) && Held(b, sub) && TurnOn(turn, b)
      invariant old(b.journal) <= b.journal && old(b.latest) <= b.latest && subs == used
      invariant Wrote(b, used, written, cursor, sub.joined + |sub.consumed|) && Trusted(b, used)
      invariant Taken(accepts, written) && spent.moved == before.moved
      invariant spent.waited + spent.received - before.waited - before.received == passes - left
      invariant spent.received - before.received == |written| - |start|
      decreases left
    {
      left := left - 1;
      var pass;
      pass, written, cursor, subs := Select(b, turn, sub, used, written, cursor, accepts);
      match pass {
        case Waited => spent := spent.(waited := spent.waited + 1);
        case Received => spent := spent.(received := spent.received + 1);
        case Moved(sub') =>
          next, spent := sub', spent.(moved := spent.moved + 1);
          Running(b, turn, subs, accepts, written, cursor);
          return;
        case Left(end) =>
          status := end;
          return;
      }
    }
    WroteCursor(b, used, written, cursor, sub.joined + |sub.consumed|);
    Running(b, turn, subs, accepts, written, cursor);
  }

  lemma Running(b: Bus, turn: Turn, subs: seq<Subscription>, accepts: Output, written: seq<Envelope>, cursor: nat)
    ensures Justified(b, turn, subs, accepts, written, cursor, StillRunning)
  {
  }

  /** The turn is over: leave, subscribe once more from the cursor, and write what is left. */
  method WriteTail(b: Bus, turn: Turn, sub: Subscription, ghost used: seq<Subscription>, start: seq<Envelope>,
    cursor0: nat, accepts: Output)
    returns (written: seq<Envelope>, cursor: nat, status: DrainStatus, ghost subs: seq<Subscription>)
    requires b.Valid() && turn.Runs(b) && turn.over && sub in b.all && Wrote(b, used, start, cursor0, cursor0)
      && Trusted(b, used) && Taken(accepts, start)
    modifies b, b.Disks(), b.all, turn
    ensures b.Valid() && old(b.all) <= b.all && fresh(b.all - old(b.all)) && TurnOn(turn, b)
    ensures old(b.journal) <= b.journal && old(b.latest) <= b.latest && |written| >= |start|
    ensures used <= subs && Wrote(b, subs, written, cursor, cursor) && Trusted(b, subs) && Taken(accepts, written)
    ensures !status.SubscriptionEnded? && !status.StillRunning?
    ensures Justified(b, turn, subs, accepts, written, cursor, status)
  {
    hide Bus.Valid, Bus.Honest, Wrote, AllExact, Trusted, Taken, Lost;
    written, cursor, subs := start, cursor0, used;
    b.Unsubscribe(sub);
    Pause(b, turn, sub, used, written, cursor, cursor);
    var r;
    r, subs := Resubscribe(b, used, written, cursor);
    if !r.Subscribed? { status := Incomplete(r); return; }
    var ok;
    written, cursor, ok := WriteReplay(b, turn, r.subscription, subs, written, cursor, accepts);
    status := if ok then Complete else WriteFailed;
  }
}
