/** Why the undo log is a stack of turns (internal/checkpoint/checkpoint.go). */
module TurnStack {
  import opened Undo

  /** The log as it is on disk: what was recorded, kept and snapshotted, and the counters. */
  datatype Log = Log(turn: nat, number: nat, entries: seq<Entry>, backups: map<string, string>, snapshots: map<nat,
      Files>)

  /** Entries are numbered upward, none from a later turn, each existing path with its own backup. */
  ghost predicate Filed(log: Log) {
    && (forall i :: 0 <= i < |log.entries| ==> log.entries[i].turn <= log.turn && log.entries[i].number <= log.number)
    && (forall i :: 0 <= i < |log.entries| && log.entries[i].existed ==>
          log.entries[i].backup == BackupName(log.entries[i].number) && log.entries[i].backup in log.backups)
    && NumbersUp(log.entries) && TurnsUp(log.entries)
    && (forall t <- log.snapshots :: t <= log.turn)
    && (forall i :: 0 <= i < |log.entries| ==> log.entries[i].turn !in log.snapshots)
  }

  ghost predicate HasOrigin(origins: seq<Origin>, turn: nat) {
    exists i :: 0 <= i < |origins| && origins[i].turn == turn
  }

  /** The turns that can be taken back are exactly those with entries or a snapshot, oldest first. */
  ghost predicate Stacked(log: Log, origins: seq<Origin>) {
    && (forall i, j :: 0 <= i < j < |origins| ==> origins[i].turn < origins[j].turn)
    && (forall i :: 0 <= i < |origins| ==> origins[i].turn <= log.turn)
    && (forall i :: 0 <= i < |origins| ==> origins[i].turn in log.snapshots || Turn(log.entries, origins[i].turn) != [])
    && (forall t <- log.snapshots :: HasOrigin(origins, t))
    && (forall e <- log.entries :: HasOrigin(origins, e.turn))
  }

  /** The tree the i-th turn left behind. */
  ghost function LeftBy(origins: seq<Origin>, files: Files, i: nat): Files
    requires i < |origins|
  {
    if i + 1 < |origins| then origins[i+1].files else files
  }

  function TakeBack(log: Log, turn: nat, files: Files): Files {
    TakenBack(log.entries, log.backups, log.snapshots, turn, files)
  }

  /** Taking back a turn from the tree it left gives the tree it started from. */
  ghost predicate Chained(log: Log, origins: seq<Origin>, files: Files) {
    forall i :: 0 <= i < |origins| ==> TakeBack(log, origins[i].turn, LeftBy(origins, files, i)) == origins[i].files
  }

  ghost predicate Recoverable(log: Log, origins: seq<Origin>, files: Files) {
    Filed(log) && Stacked(log, origins) && Chained(log, origins, files)
  }

  ghost predicate Recorded(log: Log, path: Path) {
    exists i :: 0 <= i < |log.entries| && log.entries[i].turn == log.turn && log.entries[i].path == path
  }

  /** A change the log can undo: the turn was snapshotted, or the path recorded in it. */
  ghost predicate Covered(log: Log, path: Path) {
    log.turn in log.snapshots || Recorded(log, path)
  }

  // ---- Finding the last turn ----

  /** The last turn with entries or a snapshot is the newest origin's. */
  ghost predicate IsLastTurn(log: Log, last: int) {
    && (forall e <- log.entries :: e.turn <= last) && (forall t <- log.snapshots :: t <= last)
    && (last == -1 || (exists e <- log.entries :: e.turn == last) || (last >= 0 && last in log.snapshots))
    && last >= -1
  }

  lemma LastTurnUnique(log: Log, last: int)
    requires IsLastTurn(log, last)
    ensures forall other :: IsLastTurn(log, other) ==> other == last
  {
  }

  lemma LastIsTop(log: Log, origins: seq<Origin>, last: int)
    requires Stacked(log, origins) && IsLastTurn(log, last)
    ensures last == if origins == [] then -1 else origins[|origins|-1].turn
  {
    if origins != [] {
      var top := origins[|origins|-1].turn;
      TurnMembers(log.entries, |log.entries|, top);
      if top !in log.snapshots {
        var e := Turn(log.entries, top)[0];
        assert e in log.entries && e.turn == top;
      }
      assert top <= last;
      assert HasOrigin(origins, last);
    }
  }

  // ---- What each step keeps ----

  lemma EntriesOfTurn(log: Log, turn: nat)
    requires Filed(log)
    ensures forall e <- Turn(log.entries, turn) ::
      e.turn == turn && e in log.entries && (e.existed ==> e.backup in log.backups)
  {
    TurnMembers(log.entries, |log.entries|, turn);
  }

  /** The log after one more entry. */
  function Added(log: Log, e: Entry, content: string): Log {
    log.(number := e.number, entries := log.entries + [e],
         backups := if e.existed then log.backups[e.backup := content] else log.backups)
  }

  /** The entry says what the tree holds. */
  predicate Records(files: Files, e: Entry, content: string) {
    (e.existed <==> e.path in files) && (e.existed ==> content == files[e.path])
  }

  ghost predicate NextEntry(log: Log, e: Entry) {
    e.number > log.number && e.turn == log.turn && (e.existed ==> e.backup == BackupName(e.number))
  }

  /** The origins after recording in the current turn. */
  ghost function OriginsWith(log: Log, origins: seq<Origin>, files: Files): seq<Origin> {
    if HasOrigin(origins, log.turn) then origins else origins + [Origin(log.turn, files)]
  }

  lemma FreshBackup(log: Log, e: Entry)
    requires Filed(log) && NextEntry(log, e)
    ensures forall i :: 0 <= i < |log.entries| && log.entries[i].existed && e.existed ==>
      log.entries[i].backup != e.backup
  {
    forall i | 0 <= i < |log.entries| && log.entries[i].existed && e.existed ensures log.entries[i].backup != e.backup {
      if log.entries[i].backup == e.backup { BackupNameInjective(log.entries[i].number, e.number); }
    }
  }

  lemma AddedFiled(log: Log, e: Entry, content: string)
    requires Filed(log) && NextEntry(log, e) && log.turn !in log.snapshots
    ensures Filed(Added(log, e, content))
  {
    hide BackupName;
  }

  /** Undoing a turn does not notice a later entry of another turn, and undoes a new one of its own first. */
  lemma AddedTakeBack(log: Log, e: Entry, content: string, turn: nat, files: Files)
    requires Filed(log) && NextEntry(log, e) && log.turn !in log.snapshots
    ensures turn != e.turn ==> TakeBack(Added(log, e, content), turn, files) == TakeBack(log, turn, files)
    ensures turn == e.turn && Records(files, e, content) ==>
      TakeBack(Added(log, e, content), turn, files) == TakeBack(log, turn, files)
  {
    hide BackupName;
    var log' := Added(log, e, content);
    if turn !in log.snapshots {
      TurnSnoc(log.entries, e, turn);
      EntriesOfTurn(log, turn);
      FreshBackup(log, e);
      var es := Turn(log.entries, turn);
      if turn != e.turn {
        assert Turn(log'.entries, turn) == es;
      } else {
        UndoSnoc(files, es, e, log'.backups, 0);
        if Records(files, e, content) { assert UndoOne(files, e, log'.backups) == files; }
      }
      SameBackups(log, e, content, es);
      UndoFrame(files, es, log.backups, log'.backups, 0);
    }
  }

  lemma SameBackups(log: Log, e: Entry, content: string, es: seq<Entry>)
    requires Filed(log) && NextEntry(log, e)
    requires forall x <- es :: x in log.entries && (x.existed ==> x.backup in log.backups)
    ensures var log' := Added(log, e, content);
            forall x <- es :: x.existed ==> x.backup in log'.backups && log'.backups[x.backup] == log.backups[x.backup]
  {
    hide BackupName;
    FreshBackup(log, e);
    forall x | x in es && x.existed ensures x.backup != e.backup || !e.existed {
      var i :| 0 <= i < |log.entries| && log.entries[i] == x;
    }
  }

  /** Recording keeps everything recoverable, and makes the current turn the newest that can be taken back. */
  lemma RecordKeeps(log: Log, origins: seq<Origin>, files: Files, e: Entry, content: string)
    requires Recoverable(log, origins, files) && NextEntry(log, e) && log.turn !in log.snapshots
      && Records(files, e, content)
    ensures Recoverable(Added(log, e, content), OriginsWith(log, origins, files), files)
  {
    hide BackupName, TakenBack, Filed, TakeBack;
    var log', origins' := Added(log, e, content), OriginsWith(log, origins, files);
    AddedFiled(log, e, content);
    AddedStacked(log, origins, files, e, content);
    forall i | 0 <= i < |origins'|
        ensures TakeBack(log', origins'[i].turn, LeftBy(origins', files, i)) == origins'[i].files {
      AddedTakeBack(log, e, content, origins'[i].turn, LeftBy(origins', files, i));
      if i < |origins| {
        assert LeftBy(origins', files, i) == LeftBy(origins, files, i);
        OnlyTopIsCurrent(log, origins, i);
      } else {
        NoEntriesYet(log, origins);
        UndoNothing(log, files);
      }
    }
  }

  lemma OnlyTopIsCurrent(log: Log, origins: seq<Origin>, i: nat)
    requires Stacked(log, origins) && i < |origins|
    ensures origins[i].turn == log.turn ==> i == |origins| - 1
  {
    if i < |origins| - 1 { assert origins[i].turn < origins[|origins|-1].turn; }
  }

  lemma EntriesHaveOrigin(log: Log, origins: seq<Origin>, turn: nat)
    requires Stacked(log, origins) && (Turn(log.entries, turn) != [] || turn in log.snapshots)
    ensures HasOrigin(origins, turn)
  {
    if turn !in log.snapshots {
      TurnMembers(log.entries, |log.entries|, turn);
      var e := Turn(log.entries, turn)[0];
      assert e in log.entries && e.turn == turn;
    }
  }

  lemma NoEntriesYet(log: Log, origins: seq<Origin>)
    requires Stacked(log, origins) && !HasOrigin(origins, log.turn)
    ensures Turn(log.entries, log.turn) == [] && log.turn !in log.snapshots
  {
    if Turn(log.entries, log.turn) != [] || log.turn in log.snapshots { EntriesHaveOrigin(log, origins, log.turn); }
  }

  lemma OriginsDiffer(origins: seq<Origin>, turn: nat)
    requires !HasOrigin(origins, turn)
    ensures forall i :: 0 <= i < |origins| ==> origins[i].turn != turn
  {
  }

  lemma UndoNothing(log: Log, files: Files)
    requires Turn(log.entries, log.turn) == [] && log.turn !in log.snapshots
    ensures TakeBack(log, log.turn, files) == files
  {
  }

  lemma AddedStacked(log: Log, origins: seq<Origin>, files: Files, e: Entry, content: string)
    requires Stacked(log, origins) && e.turn == log.turn && log.turn !in log.snapshots
    ensures Stacked(Added(log, e, content), OriginsWith(log, origins, files))
  {
    var log', origins' := Added(log, e, content), OriginsWith(log, origins, files);
    assert HasOrigin(origins', log.turn) by {
      if !HasOrigin(origins, log.turn) { assert origins'[|origins|].turn == log.turn; }
    }
    forall t | HasOrigin(origins, t) ensures HasOrigin(origins', t) {
      var i :| 0 <= i < |origins| && origins[i].turn == t;
      assert origins'[i] == origins[i];
    }
    forall i | 0 <= i < |origins'|
        ensures origins'[i].turn in log'.snapshots || Turn(log'.entries, origins'[i].turn) != [] {
      TurnSnoc(log.entries, e, origins'[i].turn);
    }
    if !HasOrigin(origins, log.turn) {
      forall i | 0 <= i < |origins| ensures origins[i].turn < log.turn { }
    }
  }

  // ---- Beginning a turn ----

  lemma BeginKeeps(log: Log, origins: seq<Origin>, files: Files)
    requires Recoverable(log, origins, files)
    ensures Recoverable(log.(turn := log.turn + 1), origins, files)
  {
    hide Turn, UndoFrom, BackupName;
    var log' := log.(turn := log.turn + 1);
    assert forall i :: 0 <= i < |origins| ==>
      TakeBack(log', origins[i].turn, LeftBy(origins, files, i)) ==
          TakeBack(log, origins[i].turn, LeftBy(origins, files, i));
  }

  /** The log with the current turn snapshotted. */
  function Snapped(log: Log, files: Files): Log {
    log.(snapshots := log.snapshots[log.turn := files])
  }

  /** A snapshot at the start of a turn is its origin. */
  lemma SnapshotKeeps(log: Log, origins: seq<Origin>, files: Files)
    requires Recoverable(log, origins, files) && !HasOrigin(origins, log.turn)
    ensures Recoverable(Snapped(log, files), origins + [Origin(log.turn, files)], files)
  {
    hide Filed, Stacked, Snapped, TakenBack;
    NoEntriesYet(log, origins);
    SnappedFiled(log, files);
    SnappedStacked(log, origins, files);
    OriginsDiffer(origins, log.turn);
    var origins' := origins + [Origin(log.turn, files)];
    forall i | 0 <= i < |origins'|
        ensures TakeBack(Snapped(log, files), origins'[i].turn, LeftBy(origins', files, i)) == origins'[i].files {
      SnappedTakeBack(log, files, origins'[i].turn, LeftBy(origins', files, i));
      if i < |origins| {
        assert LeftBy(origins', files, i) == LeftBy(origins, files, i);
      }
    }
  }

  lemma SnappedTakeBack(log: Log, now: Files, turn: nat, files: Files)
    ensures TakeBack(Snapped(log, now), turn, files) == if turn == log.turn then now else TakeBack(log, turn, files)
  {
    hide UndoFrom, Turn;
  }

  lemma SnappedFiled(log: Log, files: Files)
    requires Filed(log) && Turn(log.entries, log.turn) == []
    ensures Filed(Snapped(log, files))
  {
    hide BackupName;
    TurnMembers(log.entries, |log.entries|, log.turn);
  }

  lemma SnappedStacked(log: Log, origins: seq<Origin>, files: Files)
    requires Stacked(log, origins) && !HasOrigin(origins, log.turn)
    ensures Stacked(Snapped(log, files), origins + [Origin(log.turn, files)])
  {
    hide Turn;
    var origins' := origins + [Origin(log.turn, files)];
    assert origins'[|origins|].turn == log.turn && HasOrigin(origins', log.turn);
    forall t | HasOrigin(origins, t) ensures HasOrigin(origins', t) {
      var i :| 0 <= i < |origins| && origins[i].turn == t;
      assert origins'[i] == origins[i];
    }
    OriginsDiffer(origins, log.turn);
  }

  // ---- Rewinding ----

  /** The log without one turn. */
  function Dropped(log: Log, last: nat): Log {
    if last in log.snapshots then log.(snapshots := log.snapshots - {last})
    else log.(entries := NotOfTurn(log.entries, |log.entries|, last),
              backups := log.backups - BackupsOf(Turn(log.entries, last)))
  }

  function BackupsOf(es: seq<Entry>): set<string> {
    set e <- es | e.existed :: e.backup
  }

  /** Dropping the newest turn leaves the older ones recoverable from where it started. */
  lemma RewindKeeps(log: Log, origins: seq<Origin>, files: Files)
    requires Recoverable(log, origins, files) && origins != []
    ensures var top := origins[|origins|-1];
            TakeBack(log, top.turn, files) == top.files
                && Recoverable(Dropped(log, top.turn), origins[..|origins|-1], top.files)
  {
    hide TakeBack, Filed, Stacked, Dropped;
    var n := |origins| - 1;
    assert LeftBy(origins, files, n) == files;
    DroppedFiled(log, origins[n].turn);
    DroppedStacked(log, origins);
    DroppedChained(log, origins, files);
  }

  lemma LeftByRest(origins: seq<Origin>, files: Files, i: nat)
    requires i < |origins| - 1
    ensures LeftBy(origins[..|origins|-1], origins[|origins|-1].files, i) == LeftBy(origins, files, i)
  {
  }

  lemma DroppedChained(log: Log, origins: seq<Origin>, files: Files)
    requires Filed(log) && Stacked(log, origins) && Chained(log, origins, files) && origins != []
    ensures var top := origins[|origins|-1]; Chained(Dropped(log, top.turn), origins[..|origins|-1], top.files)
  {
    hide TakeBack, Filed, Dropped, LeftBy;
    var n := |origins| - 1;
    var top, rest := origins[n], origins[..n];
    forall i | 0 <= i < n
      ensures TakeBack(Dropped(log, top.turn), rest[i].turn, LeftBy(rest, top.files, i)) == rest[i].files
    {
      LeftByRest(origins, files, i);
      DroppedTakeBack(log, top.turn, origins[i].turn, LeftBy(origins, files, i));
    }
  }

  lemma DroppedFiled(log: Log, last: nat)
    requires Filed(log)
    ensures Filed(Dropped(log, last))
  {
    hide BackupName;
    if last in log.snapshots {
      SnapshotDroppedFiled(log, last);
    } else {
      OthersMembers(log.entries, |log.entries|, last);
      OthersOrdered(log.entries, |log.entries|, last);
      OthersKeepBackups(log, last);
      var kept := NotOfTurn(log.entries, |log.entries|, last);
      forall i | 0 <= i < |kept| ensures kept[i] in log.entries { }
    }
  }

  lemma SnapshotDroppedFiled(log: Log, last: nat)
    requires Filed(log)
    ensures Filed(log.(snapshots := log.snapshots - {last}))
  {
    hide BackupName;
    var rest := log.snapshots - {last};
    assert rest.Keys <= log.snapshots.Keys;
  }

  ghost predicate NumbersUp(es: seq<Entry>) {
    forall i, j :: 0 <= i < j < |es| ==> es[i].number < es[j].number
  }

  ghost predicate TurnsUp(es: seq<Entry>) {
    forall i, j :: 0 <= i < j < |es| ==> es[i].turn <= es[j].turn
  }

  ghost predicate NumbersBelow(es: seq<Entry>, n: nat) {
    forall i :: 0 <= i < |es| ==> es[i].number < n
  }

  ghost predicate TurnsUpTo(es: seq<Entry>, turn: nat) {
    forall i :: 0 <= i < |es| ==> es[i].turn <= turn
  }

  lemma {:induction false} OthersOrdered(entries: seq<Entry>, n: nat, turn: nat)
    requires n <= |entries| && NumbersUp(entries) && TurnsUp(entries)
    ensures NumbersUp(NotOfTurn(entries, n, turn)) && TurnsUp(NotOfTurn(entries, n, turn))
    ensures n < |entries| ==> NumbersBelow(NotOfTurn(entries, n, turn), entries[n].number)
    ensures n < |entries| ==> TurnsUpTo(NotOfTurn(entries, n, turn), entries[n].turn)
  {
    if n > 0 { OthersOrdered(entries, n - 1, turn); }
  }

  /** The entries of one turn are numbered upward, too. */
  lemma {:induction false} TurnNumbersUp(entries: seq<Entry>, n: nat, turn: nat)
    requires n <= |entries| && NumbersUp(entries)
    ensures NumbersUp(OfTurn(entries, n, turn))
    ensures n < |entries| ==> NumbersBelow(OfTurn(entries, n, turn), entries[n].number)
  {
    if n > 0 { TurnNumbersUp(entries, n - 1, turn); }
  }

  /** The backups of the dropped turn are not those of any other entry. */
  lemma OthersKeepBackups(log: Log, last: nat)
    requires Filed(log)
    ensures forall e <- log.entries :: e.turn != last && e.existed ==>
      e.backup in log.backups - BackupsOf(Turn(log.entries, last))
  {
    TurnMembers(log.entries, |log.entries|, last);
    forall e | e in log.entries && e.turn != last && e.existed ensures e.backup !in BackupsOf(Turn(log.entries, last)) {
      forall x | x in Turn(log.entries, last) && x.existed ensures x.backup != e.backup {
        var i :| 0 <= i < |log.entries| && log.entries[i] == e;
        var k :| 0 <= k < |log.entries| && log.entries[k] == x;
        if x.backup == e.backup { BackupNameInjective(x.number, e.number); }
      }
    }
  }

  lemma DroppedTakeBack(log: Log, last: nat, turn: nat, files: Files)
    requires Filed(log) && turn != last
    ensures TakeBack(Dropped(log, last), turn, files) == TakeBack(log, turn, files)
  {
    hide BackupName;
    if last !in log.snapshots && turn !in log.snapshots {
      TurnOfOthers(log.entries, |log.entries|, last, turn);
      EntriesOfTurn(log, turn);
      OthersKeepBackups(log, last);
      UndoFrame(files, Turn(log.entries, turn), log.backups, Dropped(log, last).backups, 0);
    }
  }

  lemma DroppedStacked(log: Log, origins: seq<Origin>)
    requires Filed(log) && Stacked(log, origins) && origins != []
    ensures Stacked(Dropped(log, origins[|origins|-1].turn), origins[..|origins|-1])
  {
    hide BackupName, UndoFrom, OfTurn;
    var n := |origins| - 1;
    var last, rest := origins[n].turn, origins[..n];
    var log' := Dropped(log, last);
    OthersMembers(log.entries, |log.entries|, last);
    forall t | HasOrigin(origins, t) && t != last ensures HasOrigin(rest, t) {
      var i :| 0 <= i < |origins| && origins[i].turn == t;
      assert rest[i] == origins[i];
    }
    forall e | e in log'.entries ensures e in log.entries && e.turn != last {
      if last in log.snapshots {
        var k :| 0 <= k < |log.entries| && log.entries[k] == e;
      }
    }
    forall i | 0 <= i < n ensures rest[i].turn in log'.snapshots || Turn(log'.entries, rest[i].turn) != [] {
      if last !in log.snapshots { TurnOfOthers(log.entries, |log.entries|, last, rest[i].turn); }
    }
  }

  // ---- Litter ----

  /** A backup that could not be deleted, or any other file in the store, changes nothing. */
  lemma LitterKeeps(log: Log, origins: seq<Origin>, files: Files, backups: map<string, string>)
    requires Recoverable(log, origins, files)
    requires forall name <- log.backups :: name in backups && backups[name] == log.backups[name]
    ensures Recoverable(log.(backups := backups), origins, files)
  {
    hide BackupName;
    var log' := log.(backups := backups);
    forall i | 0 <= i < |origins|
        ensures TakeBack(log', origins[i].turn, LeftBy(origins, files, i)) == origins[i].files {
      EntriesOfTurn(log, origins[i].turn);
      UndoFrame(LeftBy(origins, files, i), Turn(log.entries, origins[i].turn), log.backups, backups, 0);
    }
  }

  // ---- The first state of a path ----

  /** What a tree holds at a path is what an entry recorded. */
  ghost predicate Holds(files: Files, e: Entry, backups: map<string, string>) {
    if e.existed then e.path in files && e.backup in backups && files[e.path] == backups[e.backup] else e.path !in files
  }

  /** Undoing a turn restores what its first entry for a path recorded. */
  lemma {:induction false} UndoGivesFirst(files: Files, es: seq<Entry>, backups: map<string, string>, k: nat, at: nat)
    requires k <= at < |es| && (es[at].existed ==> es[at].backup in backups)
    requires forall i :: k <= i < at ==> es[i].path != es[at].path
    ensures Holds(UndoFrom(files, es, backups, k), es[at], backups)
    decreases at - k
  {
    if k < at { UndoGivesFirst(files, es, backups, k + 1, at); }
  }

  /** The first entry for its path from a turn on. */
  ghost predicate IsFirst(entries: seq<Entry>, turn: nat, k: nat) {
    k < |entries| && entries[k].turn >= turn && forall i :: 0 <= i < k && entries[i].turn >= turn ==>
        entries[i].path != entries[k].path
  }

  /** That, with nothing but copies kept in between. */
  ghost predicate FirstCopy(log: Log, turn: nat, k: nat) {
    IsFirst(log.entries, turn, k) && forall t <- log.snapshots :: turn <= t ==> t > log.entries[k].turn
  }

  /** The first entry for a path from a turn on holds it as that turn goes back to it. */
  lemma FirstEntryIsOriginal(log: Log, origins: seq<Origin>, files: Files, i: nat, k: nat)
    requires Recoverable(log, origins, files) && i < |origins| && FirstCopy(log, origins[i].turn, k)
    ensures Holds(origins[i].files, log.entries[k], log.backups)
  {
    hide UndoFrom, OfTurn, BackupName;
    var e := log.entries[k];
    assert e in log.entries && HasOrigin(origins, e.turn);
    var m :| 0 <= m < |origins| && origins[m].turn == e.turn;
    var at := FirstOfTurn(log.entries, k, |log.entries|);
    UndoGivesFirst(LeftBy(origins, files, m), Turn(log.entries, e.turn), log.backups, 0, at);
    assert TakeBack(log, origins[m].turn, LeftBy(origins, files, m)) == origins[m].files;
    EarlierTurnsLeaveAlone(log, origins, files, i, k, m);
  }

  lemma {:induction false} EarlierTurnsLeaveAlone(log: Log, origins: seq<Origin>, files: Files, i: nat, k: nat, m: nat)
    requires Recoverable(log, origins, files) && i <= m < |origins| && FirstCopy(log, origins[i].turn, k)
    requires origins[m].turn <= log.entries[k].turn && Holds(origins[m].files, log.entries[k], log.backups)
    ensures Holds(origins[i].files, log.entries[k], log.backups)
    decreases m
  {
    hide Filed, Chained, FirstCopy, Holds, Turn;
    if i < m {
      EarlierTurnLeavesAlone(log, origins, files, i, k, m);
      EarlierTurnsLeaveAlone(log, origins, files, i, k, m - 1);
    }
  }

  lemma EarlierTurnLeavesAlone(log: Log, origins: seq<Origin>, files: Files, i: nat, k: nat, m: nat)
    requires Recoverable(log, origins, files) && i < m < |origins| && FirstCopy(log, origins[i].turn, k)
    requires origins[m].turn <= log.entries[k].turn && Holds(origins[m].files, log.entries[k], log.backups)
    ensures Holds(origins[m-1].files, log.entries[k], log.backups)
  {
    hide Filed, UndoFrom, OfTurn;
    var e, t := log.entries[k], origins[m-1].turn;
    assert origins[i].turn <= t < origins[m].turn;
    assert TakeBack(log, t, LeftBy(origins, files, m - 1)) == origins[m-1].files;
    NotInEarlierTurn(log, origins[i].turn, k, t);
    UndoLeavesAlone(origins[m].files, Turn(log.entries, t), log.backups, 0, e.path);
  }

  lemma LaterTurns(log: Log, k: nat, i: nat)
    requires Filed(log) && k <= i < |log.entries|
    ensures log.entries[k].turn <= log.entries[i].turn
  {
    hide BackupName;
  }

  lemma NotInEarlierTurn(log: Log, from: nat, k: nat, turn: nat)
    requires Filed(log) && IsFirst(log.entries, from, k) && from <= turn < log.entries[k].turn
    ensures forall e <- Turn(log.entries, turn) :: e.path != log.entries[k].path
  {
    hide Filed;
    TurnMembers(log.entries, |log.entries|, turn);
    forall e | e in Turn(log.entries, turn) ensures e.path != log.entries[k].path {
      var i :| 0 <= i < |log.entries| && log.entries[i] == e;
      if i >= k { LaterTurns(log, k, i); }
    }
  }

  /** es[at] is the entry, and the first of es for its path. */
  ghost predicate FirstIn(es: seq<Entry>, at: nat, e: Entry) {
    at < |es| && es[at] == e && forall i :: 0 <= i < at ==> es[i].path != e.path
  }

  lemma {:induction false} FirstOfTurn(entries: seq<Entry>, k: nat, n: nat) returns (at: nat)
    requires k < n <= |entries| && IsFirst(entries, entries[k].turn, k)
    ensures FirstIn(OfTurn(entries, n, entries[k].turn), at, entries[k])
  {
    var turn := entries[k].turn;
    if n == k + 1 {
      var before := OfTurn(entries, k, turn);
      at := |before|;
      TurnMembersIndexed(entries, k, turn);
      TurnMembers(entries, k, turn);
      forall i | 0 <= i < at ensures OfTurn(entries, n, turn)[i].path != entries[k].path {
        assert before[i] in before;
      }
    } else {
      at := FirstOfTurn(entries, k, n - 1);
    }
  }

  lemma {:induction false} TurnMembersIndexed(entries: seq<Entry>, n: nat, turn: nat)
    requires n <= |entries|
    ensures forall x <- OfTurn(entries, n, turn) :: exists i :: 0 <= i < n && entries[i] == x
  {
    if n > 0 { TurnMembersIndexed(entries, n - 1, turn); }
  }
}
