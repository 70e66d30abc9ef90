/** The checkpoint store: copies or snapshots taken before the agent writes, and rewinding turn by turn or task by task
    (internal/checkpoint/checkpoint.go, internal/checkpoint/task_snapshot.go). A commit is the tree it saved. What the
    file system and git do is left open: any step may fail, except when they are said to work. */
module Checkpoints {
  import opened Undo
  import opened TurnStack
  import opened OutsideEdits

  class Tree {
    var files: Files

    constructor (files: Files)
      ensures this.files == files
    {
      this.files := files;
    }
  }

  datatype Task = Task(title: string, turn: nat, commit: Files, paths: seq<Path>, consumed: bool)

  datatype RewindResult = NothingToRewind | Rewound(paths: seq<Path>) | RewindFailed

  datatype TaskRewind = Refused | Broken(restored: seq<Path>) | TakenOut(restored: seq<Path>, kept: seq<Path>)

  /** One step asked of the file system or of git. */
  method Attempt(works: bool) returns (done: bool)
    ensures works ==> done
  {
    done := *;
    if works { done := true; }
  }

  datatype Content = Absent | Bytes(bytes: string)

  datatype OriginalResult = NotChanged | MissingBackup | Was(content: Content)

  /** The first k entries' backups are all there. */
  ghost predicate AllKept(es: seq<Entry>, k: nat, backups: map<string, string>) {
    k <= |es| && forall j :: 0 <= j < k && es[j].existed ==> es[j].backup in backups
  }

  function At(files: Files, path: Path): Content {
    if path in files then Bytes(files[path]) else Absent
  }

  function Put(files: Files, path: Path, content: Content): Files {
    match content case Absent => files - {path} case Bytes(b) => files[path := b]
  }

  class Store {
    const tree: Tree
    var turn: nat
    var number: nat
    var entries: seq<Entry>
    var backups: map<string, string>
    var shadow: bool
    var snapshots: map<nat, Files>
    var tasks: seq<Task>
    ghost var origins: seq<Origin>

    constructor (tree: Tree, shadow: bool)
      ensures this.tree == tree && Intact() && origins == [] && tasks == [] && this.shadow == shadow
    {
      this.tree, turn, number, entries, backups := tree, 0, 0, [], map[];
      this.shadow, snapshots, tasks := shadow, map[], [];
      origins := [];
    }

    function TheLog(): Log
      reads `turn, `number, `entries, `backups, `snapshots
    {
      Log(turn, number, entries, backups, snapshots)
    }

    /** Every turn that can be taken back can be taken back to the tree it goes back to. */
    ghost predicate Intact()
      reads `turn, `number, `entries, `backups, `snapshots, `shadow, `origins, tree
    {
      Recoverable(TheLog(), origins, tree.files) && (turn in snapshots ==> shadow)
    }

    /** A new turn; with a shadow store, the tree as it is now becomes what the turn can be taken back to. */
    method BeginTurn(works: bool)
      modifies `turn, `shadow, `snapshots, `origins
      ensures old(Intact()) ==> Intact() && old(origins) <= origins
      ensures turn == old(turn) + 1
      ensures shadow ==> turn in snapshots
      ensures works ==> shadow == old(shadow)
      ensures !shadow ==> snapshots == old(snapshots)
      ensures !old(shadow) ==> !shadow
      ensures old(Intact()) ==> origins == old(origins) + if shadow then [Origin(turn, tree.files)] else []
    {
      hide TakeBack, Filed, Stacked;
      ghost var was := Intact();
      if was {
        BeginKeeps(TheLog(), origins, tree.files);
        NewTurnHasNoOrigin(TheLog(), origins);
      }
      turn := turn + 1;
      if !shadow { return; }
      var taken := Attempt(works);
      var saved := Attempt(works);
      if !taken || !saved {
        shadow := false;
        return;
      }
      if was {
        SnapshotKeeps(TheLog(), origins, tree.files);
        origins := origins + [Origin(turn, tree.files)];
      }
      snapshots := snapshots[turn := tree.files];
    }

    lemma NewTurnHasNoOrigin(log: Log, origins: seq<Origin>)
      requires Stacked(log, origins)
      ensures !HasOrigin(origins, log.turn + 1) && log.turn + 1 !in log.snapshots
    {
    }

    /** The entry that keeps a path as it is now. */
    function EntryFor(path: Path): Entry
      reads `turn, `number, tree
    {
      Entry(number + 1, turn, path, path in tree.files, if path in tree.files then BackupName(number + 1) else "")
    }

    function ContentOf(path: Path): string
      reads tree
    {
      if path in tree.files then tree.files[path] else ""
    }

    lemma EntryForIsNext(path: Path)
      ensures NextEntry(TheLog(), EntryFor(path)) && EntryFor(path).path == path
      ensures Records(tree.files, EntryFor(path), ContentOf(path))
      ensures EntryFor(path).existed <==> path in tree.files
    {
      hide BackupName;
    }

    /** Keep a path as it is before it is written. Nothing to do when the turn was snapshotted. */
    method Record(path: Path, works: bool) returns (ok: bool)
      modifies `number, `entries, `backups, `origins
      ensures old(Intact()) ==> Intact()
      ensures old(Intact()) ==> origins == old(origins) || origins == old(origins) + [Origin(turn, tree.files)]
      ensures old(Intact()) && ok && !shadow ==> origins == OriginsWith(old(TheLog()), old(origins), tree.files)
      ensures works ==> ok
      ensures ok && !shadow ==> Covered(TheLog(), path)
      ensures ok && !shadow ==> TheLog() == Added(old(TheLog()), old(EntryFor(path)), ContentOf(path))
      ensures shadow ==> ok && unchanged(this)
    {
      if shadow { return true; }
      hide TakeBack, Filed, Stacked, Chained, BackupName, Added, NextEntry, Records, Covered, EntryFor, ContentOf;
      var readable := Attempt(works);
      if !readable { return false; }
      var content := ContentOf(path);
      var written := Attempt(works);
      if path in tree.files && !written {
        if old(Intact()) { BurnedNumber(TheLog(), origins, tree.files); }
        number := number + 1;
        return false;
      }
      EntryForIsNext(path);
      AddEntry(EntryFor(path), content);
      ok := Attempt(works);
    }

    method AddEntry(e: Entry, content: string)
      requires NextEntry(TheLog(), e) && Records(tree.files, e, content) && !shadow
      modifies `number, `entries, `backups, `origins
      ensures TheLog() == Added(old(TheLog()), e, content) && Covered(TheLog(), e.path)
      ensures old(Intact()) ==> Intact() && origins == OriginsWith(old(TheLog()), old(origins), tree.files)
    {
      hide TakeBack, Filed, Stacked, Chained, BackupName;
      if old(Intact()) {
        RecordKeeps(TheLog(), origins, tree.files, e, content);
        origins := OriginsWith(TheLog(), origins, tree.files);
      }
      number, entries := e.number, entries + [e];
      if e.existed { backups := backups[e.backup := content]; }
      assert entries[|entries|-1] == e;
    }

    lemma BurnedNumber(log: Log, origins: seq<Origin>, files: Files)
      requires Recoverable(log, origins, files)
      ensures Recoverable(log.(number := log.number + 1), origins, files)
    {
      hide TakenBack, BackupName, Turn;
      var log' := log.(number := log.number + 1);
      assert forall i :: 0 <= i < |origins| ==>
        TakeBack(log', origins[i].turn, LeftBy(origins, files, i)) ==
            TakeBack(log, origins[i].turn, LeftBy(origins, files, i));
    }

    /** A write or a removal, by one of the agent's tools, a shell command or the user. The turns that restore the path
        go back to the trees they went back to before; for the others the change is carried over to them. */
    method Change(path: Path, content: Content)
      modifies tree, `origins
      ensures tree.files == Put(old(tree.files), path, content)
      ensures old(Intact()) ==> Intact() && origins == Rebased(TheLog(), old(origins), tree.files)
      ensures old(Intact()) ==> forall i :: 0 <= i < |origins| && Reverts(TheLog(), origins[i].turn, path) ==>
        origins[i] == old(origins)[i]
      ensures old(Intact()) ==> forall i, p :: 0 <= i < |origins| && p != path ==>
        !Differ(origins[i].files, old(origins)[i].files, p)
      ensures old(Intact()) && Covered(TheLog(), path) ==> origins == old(origins)
    {
      hide Recoverable, Reverts, Carried, Covered;
      ghost var before, was := tree.files, origins;
      tree.files := Put(tree.files, path, content);
      if old(Intact()) {
        EditKeeps(TheLog(), origins, before, tree.files);
        forall i | 0 <= i < |origins| { OneEdit(TheLog(), origins, before, tree.files, path, i); }
        origins := Rebased(TheLog(), origins, tree.files);
        if Covered(TheLog(), path) { CoveredMovesNothing(TheLog(), was, before, tree.files, path); }
      }
    }

    /** Any change of the tree as a whole. */
    ghost method Carry(before: Files)
      requires Recoverable(TheLog(), origins, before) && (turn in snapshots ==> shadow)
      modifies `origins
      ensures Intact() && origins == Rebased(TheLog(), old(origins), tree.files)
    {
      hide Recoverable, Rebased;
      EditKeeps(TheLog(), origins, before, tree.files);
      origins := Rebased(TheLog(), origins, tree.files);
    }

    // ---- Rewinding a turn ----

    method LastTurn() returns (last: int)
      ensures IsLastTurn(TheLog(), last)
    {
      last := -1;
      for i := 0 to |entries|
        invariant last >= -1 && (forall k :: 0 <= k < i ==> entries[k].turn <= last)
        invariant last == -1 || exists e <- entries :: e.turn == last
      {
        if entries[i].turn > last {
          last := entries[i].turn;
          assert entries[i] in entries;
        }
      }
      var todo := snapshots.Keys;
      while todo != {}
        invariant todo <= snapshots.Keys && last >= -1
        invariant (forall e <- entries :: e.turn <= last) && (forall t :: t in snapshots && t !in todo ==> t <= last)
        invariant last == -1 || (exists e <- entries :: e.turn == last) || (last >= 0 && last in snapshots)
        decreases todo
      {
        var t :| t in todo;
        todo := todo - {t};
        if t > last { last := t; }
      }
    }

    /** Restore what the last turn with changes recorded, newest first, and forget that turn. A rewind that succeeds
        puts the whole tree back to what that turn goes back to: the paths it recorded as they were, every other path,
        by whomever it was changed since, as it is. */
    method RewindLastTurn(works: bool) returns (r: RewindResult)
      modifies this, tree
      ensures old(Intact()) && r.Rewound? ==>
        && old(origins) != [] && tree.files == old(origins[|origins|-1]).files
        && Intact() && origins == old(origins[..|origins|-1])
      ensures old(Intact()) && r.RewindFailed? ==>
        (forall last: nat :: old(IsLastTurn(TheLog(), last)) ==> last in old(snapshots)) ==> Intact()
      ensures old(Intact()) ==> (r.NothingToRewind? <==> old(origins) == [])
      ensures r.NothingToRewind? ==> unchanged(this) && unchanged(tree)
      ensures r.Rewound? ==> forall last: nat :: old(IsLastTurn(TheLog(), last)) ==>
        tree.files == TakeBack(old(TheLog()), last, old(tree.files)) && Forgot(old(TheLog()), last)
      ensures forall last: nat, p ::
        old(IsLastTurn(TheLog(), last)) && last !in old(snapshots) && !RecordedIn(old(TheLog()), last, p) ==>
        !Differ(tree.files, old(tree.files), p)
      ensures works && old(Intact()) ==>
        (forall last: nat :: old(IsLastTurn(TheLog(), last)) ==> shadow || last !in old(snapshots)) ==> !r.RewindFailed?
      ensures turn == old(turn) && tasks == old(tasks) && shadow == old(shadow) && snapshots.Keys <= old(snapshots).Keys
    {
      hide TakeBack, Filed, Stacked, Chained, BackupName, TakenBack;
      ghost var log, files := TheLog(), tree.files;
      var last := LastTurn();
      LastTurnUnique(log, last);
      if old(Intact()) { LastIsTop(log, origins, last); }
      if last == -1 { return NothingToRewind; }
      if last in snapshots {
        r := RewindSnapshot(last, works);
      } else {
        r := RewindEntries(last, works);
      }
      if old(Intact()) && (r.Rewound? || last in log.snapshots) {
        if TheLog() == log && !r.Rewound? {
          Carry(files);
        } else {
          Forget(log, files, last);
        }
      }
    }

    /** A turn taken back is no longer one to go back to. */
    ghost method Forget(log: Log, files: Files, last: nat)
      requires Recoverable(log, origins, files) && (log.turn in log.snapshots ==> shadow) && IsLastTurn(log, last)
      requires Forgot(log, last) && tree.files == TakeBack(log, last, files)
      modifies `origins
      ensures Intact() && old(origins) != []
      ensures origins == old(origins[..|origins|-1]) && tree.files == old(origins[|origins|-1]).files
    {
      hide TakeBack, Filed, Stacked, Chained, BackupName, TakenBack;
      LastIsTop(log, origins, last);
      RewindKeeps(log, origins, files);
      LitterKeeps(Dropped(log, last), origins[..|origins|-1], tree.files, backups);
      StillShadowed(log, last);
      origins := origins[..|origins|-1];
    }

    lemma StillShadowed(log: Log, last: nat)
      requires log.turn in log.snapshots ==> shadow
      ensures log.turn in Dropped(log, last).snapshots ==> shadow
    {
    }

    /** The log without one turn, except for backups that could not be deleted. */
    ghost predicate Forgot(log: Log, last: nat)
      reads `turn, `number, `entries, `backups, `snapshots
    {
      var d := Dropped(log, last);
      && TheLog() == d.(backups := backups)
      && forall name <- d.backups :: name in backups && backups[name] == d.backups[name]
    }

    method RewindSnapshot(last: nat, works: bool) returns (r: RewindResult)
      requires last in snapshots
      modifies `snapshots, tree
      ensures r.Rewound? ==>
        && Forgot(old(TheLog()), last) && tree.files == TakeBack(old(TheLog()), last, old(tree.files))
        && forall p :: p in r.paths <==> Differ(old(snapshots)[last], old(tree.files), p)
      ensures r.RewindFailed? ==>
        TheLog() == old(TheLog())
            || (Forgot(old(TheLog()), last) && tree.files == TakeBack(old(TheLog()), last, old(tree.files)))
      ensures !r.NothingToRewind? && (works && shadow ==> r.Rewound?) && snapshots.Keys <= old(snapshots).Keys
    {
      if !shadow { return RewindFailed; }
      var commit := snapshots[last];
      var changed := ChangedSince(tree, commit);
      var reset := Attempt(works);
      if !reset {
        var halfway: Files := *;
        tree.files := halfway;
        return RewindFailed;
      }
      tree.files := commit;
      snapshots := snapshots - {last};
      var saved := Attempt(works);
      r := if saved then Rewound(changed) else RewindFailed;
    }

    /** Undo a turn's entries, newest first. It cannot succeed once a backup is gone, as it is after an attempt that
        failed half way: that attempt deleted the backups it had used and kept their entries. */
    method RewindEntries(last: nat, works: bool) returns (r: RewindResult)
      requires last !in snapshots
      modifies `entries, `backups, tree
      ensures r.Rewound? ==>
        && Forgot(old(TheLog()), last) && tree.files == TakeBack(old(TheLog()), last, old(tree.files))
        && |r.paths| == |Turn(old(entries), last)|
        && forall k :: 0 <= k < |r.paths| ==> r.paths[k] == Turn(old(entries), last)[|r.paths|-1-k].path
      ensures r.Rewound? ==> AllKept(Turn(old(entries), last), |Turn(old(entries), last)|, old(backups))
      ensures r.Rewound? ==>
        forall at :: 0 <= at < |Turn(old(entries), last)| && IsFirst(Turn(old(entries), last), 0, at) ==>
        Holds(tree.files, Turn(old(entries), last)[at], old(backups))
      ensures forall p :: !RecordedIn(old(TheLog()), last, p) ==> !Differ(tree.files, old(tree.files), p)
      ensures !r.NothingToRewind? && (works && old(Filed(TheLog())) ==> r.Rewound?)
    {
      hide Filed;
      var keep, undo := Partition(last);
      if old(Filed(TheLog())) { FiledIsKept(old(TheLog()), last); }
      var restored: seq<Path> := [];
      var i := |undo|;
      while i > 0
        invariant 0 <= i <= |undo|
        invariant tree.files == UndoFrom(old(tree.files), undo, old(backups), i)
        invariant |restored| == |undo| - i && forall k :: 0 <= k < |restored| ==> restored[k] == undo[|undo|-1-k].path
        invariant forall name <- backups :: name in old(backups) && backups[name] == old(backups)[name]
        invariant forall name <- old(backups) :: name !in BackupsOf(undo) ==> name in backups
        invariant entries == old(entries)
        invariant forall j :: i <= j < |undo| && undo[j].existed ==> undo[j].backup in old(backups)
        invariant old(Filed(TheLog())) ==> AllKept(undo, i, backups)
      {
        var e := undo[i-1];
        assert e in undo;
        var done := Attempt(works);
        if !done || (e.existed && e.backup !in backups) {
          OthersUntouched(old(TheLog()), last, old(tree.files), i);
          return RewindFailed;
        }
        tree.files := if e.existed then tree.files[e.path := backups[e.backup]] else tree.files - {e.path};
        var deleted := Attempt(works);
        if old(Filed(TheLog())) { StillKept(old(TheLog()), last, i, backups); }
        if e.existed && deleted { backups := backups - {e.backup}; }
        restored := restored + [e.path];
        i := i - 1;
      }
      OthersUntouched(old(TheLog()), last, old(tree.files), 0);
      FirstsRestored(old(TheLog()), last, old(tree.files));
      entries := keep;
      var saved := Attempt(works);
      r := if saved then Rewound(restored) else RewindFailed;
    }

    lemma OthersUntouched(log: Log, last: nat, files: Files, i: nat)
      requires i <= |Turn(log.entries, last)|
      ensures forall p :: !RecordedIn(log, last, p) ==>
        !Differ(UndoFrom(files, Turn(log.entries, last), log.backups, i), files, p)
    {
      forall p | !RecordedIn(log, last, p)
        ensures !Differ(UndoFrom(files, Turn(log.entries, last), log.backups, i), files, p)
      {
        UndoLeavesAlone(files, Turn(log.entries, last), log.backups, i, p);
      }
    }

    lemma FirstsRestored(log: Log, last: nat, files: Files)
      requires AllKept(Turn(log.entries, last), |Turn(log.entries, last)|, log.backups)
      ensures forall at :: 0 <= at < |Turn(log.entries, last)| && IsFirst(Turn(log.entries, last), 0, at) ==>
        Holds(UndoFrom(files, Turn(log.entries, last), log.backups, 0), Turn(log.entries, last)[at], log.backups)
    {
      hide UndoFrom, OfTurn, Holds;
      var es := Turn(log.entries, last);
      forall at | 0 <= at < |es| && IsFirst(es, 0, at)
        ensures Holds(UndoFrom(files, es, log.backups, 0), es[at], log.backups)
      {
        UndoGivesFirst(files, es, log.backups, 0, at);
      }
    }

    lemma FiledIsKept(log: Log, last: nat)
      requires Filed(log)
      ensures AllKept(Turn(log.entries, last), |Turn(log.entries, last)|, log.backups)
    {
      hide BackupName;
      TurnMembers(log.entries, |log.entries|, last);
    }

    /** The backups of entries still to be undone are other entries' backups. */
    lemma StillKept(log: Log, last: nat, i: nat, backups: map<string, string>)
      requires Filed(log) && 0 < i && AllKept(Turn(log.entries, last), i, backups)
      ensures var e := Turn(log.entries, last)[i-1];
              e.existed ==> AllKept(Turn(log.entries, last), i - 1, backups - {e.backup})
      ensures AllKept(Turn(log.entries, last), i - 1, backups)
    {
      hide BackupName;
      var es := Turn(log.entries, last);
      TurnMembers(log.entries, |log.entries|, last);
      TurnNumbersUp(log.entries, |log.entries|, last);
      forall j | 0 <= j < i - 1 && es[j].existed && es[i-1].existed ensures es[j].backup != es[i-1].backup {
        if es[j].backup == es[i-1].backup { BackupNameInjective(es[j].number, es[i-1].number); }
      }
    }

    method Partition(last: nat) returns (keep: seq<Entry>, undo: seq<Entry>)
      ensures keep == NotOfTurn(entries, |entries|, last) && undo == Turn(entries, last)
    {
      keep, undo := [], [];
      for i := 0 to |entries|
        invariant keep == NotOfTurn(entries, i, last) && undo == OfTurn(entries, i, last)
      {
        if entries[i].turn == last { undo := undo + [entries[i]]; } else { keep := keep + [entries[i]]; }
      }
    }

    /** None of the last k turns needs a snapshot that can no longer be read. */
    ghost predicate Reachable(k: nat)
      reads `shadow, `snapshots, `origins
    {
      k <= |origins| && forall i :: |origins| - k <= i < |origins| ==> shadow || origins[i].turn !in snapshots
    }

    lemma OnlyTop(log: Log, origins: seq<Origin>, files: Files)
      requires Recoverable(log, origins, files)
      ensures forall last: nat :: IsLastTurn(log, last) ==> origins != [] && last == origins[|origins|-1].turn
    {
      hide Stacked, IsLastTurn;
      forall last: nat | IsLastTurn(log, last) ensures origins != [] && last == origins[|origins|-1].turn {
        LastIsTop(log, origins, last);
      }
    }

    /** k successful rewinds put the tree back to what the k-th last turn goes back to; no path that none of these turns
        recorded is touched. */
    method RewindTurns(k: nat, works: bool) returns (ok: bool)
      modifies this, tree
      ensures old(Intact()) && ok ==>
        && Intact() && k <= |old(origins)| && origins == old(origins)[..|old(origins)|-k]
        && (k > 0 ==> tree.files == old(origins)[|old(origins)|-k].files)
        && (k > 0 ==> forall p :: !Reverts(old(TheLog()), old(origins)[|old(origins)|-k].turn, p) ==>
              !Differ(tree.files, old(tree.files), p))
      ensures k == 0 ==> ok && unchanged(this) && unchanged(tree)
      ensures works && old(Intact()) && old(Reachable(k)) ==> ok
    {
      hide Recoverable, IsLastTurn;
      ghost var n := |origins|;
      for i := 0 to k
        invariant i == 0 ==> unchanged(this) && unchanged(tree)
        invariant old(Intact()) ==> Intact() && i <= n && origins == old(origins)[..n-i]
        invariant old(Intact()) && i > 0 ==> tree.files == old(origins)[n-i].files
        invariant shadow == old(shadow) && snapshots.Keys <= old(snapshots).Keys
      {
        if Intact() { OnlyTop(TheLog(), origins, tree.files); }
        var r := RewindLastTurn(works);
        if !r.Rewound? { return false; }
      }
      if old(Intact()) && k > 0 { OutsideAllStays(old(TheLog()), old(origins), old(tree.files), n - k); }
      ok := true;
    }

    /** A path as it was before the session first touched it: the first entry, not the latest. It is what every turn
        goes back to from which on only copies were kept until that entry. */
    method Original(path: Path) returns (r: OriginalResult, ghost found: nat)
      ensures r.NotChanged? <==> forall e <- entries :: e.path != path
      ensures !r.NotChanged? ==> IsFirst(entries, 0, found) && entries[found].path == path
      ensures Intact() && !r.NotChanged? ==> !r.MissingBackup? && forall i :: 0 <= i < |origins| ==>
        FirstCopy(TheLog(), origins[i].turn, found) ==> r.content == At(origins[i].files, path)
    {
      hide Filed, Stacked, Chained, FirstCopy;
      for i := 0 to |entries|
        invariant forall k :: 0 <= k < i ==> entries[k].path != path
      {
        var e := entries[i];
        if e.path != path { continue; }
        found := i;
        assert e in entries;
        if Intact() { HeldInAll(TheLog(), origins, tree.files, i); }
        if !e.existed { return Was(Absent), i; }
        if e.backup !in backups { return MissingBackup, i; }
        return Was(Bytes(backups[e.backup])), i;
      }
      r, found := NotChanged, 0;
    }

    lemma HeldInAll(log: Log, origins: seq<Origin>, files: Files, k: nat)
      requires Recoverable(log, origins, files) && k < |log.entries|
      ensures var e := log.entries[k];
              && (e.existed ==> e.backup in log.backups)
              && forall i :: 0 <= i < |origins| ==> FirstCopy(log, origins[i].turn, k) ==>
                   At(origins[i].files, e.path) == if e.existed then Bytes(log.backups[e.backup]) else Absent
    {
      hide FirstCopy, Stacked, Chained, BackupName;
      forall i | 0 <= i < |origins| && FirstCopy(log, origins[i].turn, k)
        ensures Holds(origins[i].files, log.entries[k], log.backups)
      {
        FirstEntryIsOriginal(log, origins, files, i, k);
      }
    }

    // ---- Tasks ----

    /** Snapshot the tree before a writing subagent; -1 when nothing was captured. */
    method BeginTask(title: string, works: bool) returns (handle: int)
      modifies `tasks
      ensures handle == -1 <==> tasks == old(tasks)
      ensures works && shadow ==> handle != -1
      ensures handle != -1 ==>
        shadow && handle == |old(tasks)| && tasks == old(tasks) + [Task(title, turn, tree.files, [], false)]
    {
      var taken := Attempt(works);
      if !shadow || !taken { return -1; }
      tasks := tasks + [Task(title, turn, tree.files, [], false)];
      handle := |tasks| - 1;
    }

    /** Note what the subagent changed, while that is still all that changed. */
    method EndTask(handle: int, works: bool)
      modifies `tasks
      ensures |tasks| == |old(tasks)| && forall i :: 0 <= i < |tasks| && i != handle ==> tasks[i] == old(tasks)[i]
      ensures tasks != old(tasks) || (works && shadow && 0 <= handle < |tasks|) ==>
        && 0 <= handle < |tasks| && tasks[handle] == old(tasks)[handle].(paths := tasks[handle].paths)
        && forall p :: p in tasks[handle].paths <==> Differ(tasks[handle].commit, tree.files, p)
    {
      if !shadow || handle < 0 || handle >= |tasks| { return; }
      var readable := Attempt(works);
      if !readable { return; }
      var paths := ChangedSince(tree, tasks[handle].commit);
      tasks := tasks[handle := tasks[handle].(paths := paths)];
    }

    /** Some later task that still stands changed the path too. */
    predicate ChangedLater(n: nat, path: Path)
      reads `tasks
    {
      exists m :: n <= m < |tasks| && !tasks[m].consumed && path in tasks[m].paths
    }

    /** Take one task back, at most once: exactly the paths it changed and no later standing task did go back to its
        snapshot; nothing else moves. Tasks are numbered from 1. */
    method RewindTask(n: int, works: bool) returns (r: TaskRewind)
      modifies `tasks, tree, `origins
      ensures old(Intact()) ==> Intact() && origins == Rebased(TheLog(), old(origins), tree.files)
      ensures old(Intact()) && turn in snapshots ==> origins == old(origins)
      ensures r.Refused? <==> !shadow || n < 1 || n > |old(tasks)| || old(tasks)[n-1].consumed
      ensures r.Refused? ==> unchanged(this) && unchanged(tree)
      ensures works ==> !r.Broken?
      ensures r.TakenOut? ==>
        && tasks == old(tasks)[n-1 := old(tasks)[n-1].(consumed := true)]
        && (forall p :: p in r.restored <==>
              p in old(tasks)[n-1].paths
                  && forall m :: n <= m < |old(tasks)| && p in old(tasks)[m].paths ==> old(tasks)[m].consumed)
        && (forall p :: p in r.kept <==>
              p in old(tasks)[n-1].paths
                  && exists m :: n <= m < |old(tasks)| && p in old(tasks)[m].paths && !old(tasks)[m].consumed)
        && tree.files == Restored(old(tree.files), old(tasks)[n-1].commit, r.restored, |r.restored|)
    {
      hide Recoverable, Rebased;
      if !shadow || n < 1 || n > |tasks| || tasks[n-1].consumed {
        if Intact() { RebasedOnItself(TheLog(), origins, tree.files); }
        return Refused;
      }
      var task := tasks[n-1];
      var later := LaterPaths(n);
      var restored: seq<Path>, kept: seq<Path> := [], [];
      for i := 0 to |task.paths|
        invariant tasks == old(tasks) && origins == old(origins)
        invariant forall p :: p in restored <==> p in task.paths[..i] && p !in later
        invariant forall p :: p in kept <==> p in task.paths[..i] && p in later
        invariant tree.files == Restored(old(tree.files), task.commit, restored, |restored|)
      {
        var p := task.paths[i];
        if p in later {
          kept := kept + [p];
        } else {
          var done := Attempt(works);
          if !done {
            if old(Intact()) { CarryTask(old(tree.files)); }
            return Broken(restored);
          }
          RestoredSnoc(old(tree.files), task.commit, restored, p);
          tree.files := RestoreOne(tree.files, task.commit, p);
          restored := restored + [p];
        }
      }
      assert task.paths[..|task.paths|] == task.paths;
      tasks := tasks[n-1 := task.(consumed := true)];
      if old(Intact()) { CarryTask(old(tree.files)); }
      var saved := Attempt(works);
      r := if saved then TakenOut(restored, kept) else Broken(restored);
    }

    /** Taking tasks back changes the tree; under the turn's own snapshot that moves no turn's tree to go back to. */
    ghost method CarryTask(before: Files)
      requires Recoverable(TheLog(), origins, before) && (turn in snapshots ==> shadow)
      modifies `origins
      ensures Intact() && origins == Rebased(TheLog(), old(origins), tree.files)
      ensures turn in snapshots ==> origins == old(origins)
    {
      hide Rebased, Chained, Filed;
      if turn in snapshots { SnapshotMovesNothing(TheLog(), origins, tree.files); }
      Carry(before);
    }

    method LaterPaths(n: nat) returns (later: set<Path>)
      requires n <= |tasks|
      ensures forall p :: p in later <==> ChangedLater(n, p)
    {
      later := {};
      for m := n to |tasks|
        invariant forall p :: p in later <==> exists k :: n <= k < m && !tasks[k].consumed && p in tasks[k].paths
      {
        if !tasks[m].consumed { later := later + set p <- tasks[m].paths; }
      }
    }

    /** One more task, run to its end with nothing in between, keeps that so. */
    method RunTask(title: string, left: Files, first: nat, works: bool) returns (ok: bool)
      requires first <= |tasks|
      modifies `tasks, tree, `origins
      ensures old(Intact()) ==> Intact() && (turn in snapshots ==> origins == old(origins))
      ensures old(RanInTurn(tasks, tree.files, first)) && ok ==> RanInTurn(tasks, tree.files, first)
      ensures ok ==> tree.files == left && |tasks| == |old(tasks)| + 1 && tasks[|tasks|-1].commit == old(tree.files)
      ensures works && shadow ==> ok
    {
      var handle := BeginTask(title, works);
      if handle == -1 { return false; }
      hide Recoverable;
      tree.files := left;
      if old(Intact()) { CarryTask(old(tree.files)); }
      EndTask(handle, works);
      if works && tasks[handle].paths == [] { NoDifference(tasks[handle].commit, left); }
      ok := tasks[handle].paths != [] || tasks[handle].commit == left;
      if ok && old(RanInTurn(tasks, tree.files, first)) {
        assert tasks == old(tasks) + [tasks[handle]];
        RanOneMore(old(tasks), tasks[handle], left, first);
      }
    }
  }

  /** A path put back to its state in a commit, or removed when the commit does not hold it. */
  function RestoreOne(files: Files, commit: Files, path: Path): Files {
    if path in commit then files[path := commit[path]] else files - {path}
  }

  function Restored(files: Files, commit: Files, paths: seq<Path>, n: nat): Files
    requires n <= |paths|
  {
    if n == 0 then files else RestoreOne(Restored(files, commit, paths, n - 1), commit, paths[n-1])
  }

  lemma {:induction false} RestoredPrefix(files: Files, commit: Files, paths: seq<Path>, p: Path, n: nat)
    requires n <= |paths|
    ensures Restored(files, commit, paths + [p], n) == Restored(files, commit, paths, n)
  {
    if n > 0 { RestoredPrefix(files, commit, paths, p, n - 1); }
  }

  lemma RestoredSnoc(files: Files, commit: Files, paths: seq<Path>, p: Path)
    ensures Restored(files, commit, paths + [p], |paths| + 1) ==
      RestoreOne(Restored(files, commit, paths, |paths|), commit, p)
  {
    RestoredPrefix(files, commit, paths, p, |paths|);
  }

  /** Restoring touches the listed paths and nothing else. */
  lemma {:induction false} RestoredAt(files: Files, commit: Files, paths: seq<Path>, n: nat, p: Path)
    requires n <= |paths|
    ensures if p in paths[..n] then !Differ(Restored(files, commit, paths, n), commit, p)
            else !Differ(Restored(files, commit, paths, n), files, p)
  {
    if n > 0 {
      RestoredAt(files, commit, paths, n - 1, p);
      assert paths[..n] == paths[..n-1] + [paths[n-1]];
    }
  }

  ghost predicate ChangedExactly(task: Task, left: Files) {
    forall p :: p in task.paths <==> Differ(task.commit, left, p)
  }

  /** What the tree was when task i ended: what its successor began with, or what it is now. */
  ghost function LeftByTask(tasks: seq<Task>, files: Files, i: nat): Files {
    if i + 1 < |tasks| then tasks[i+1].commit else files
  }

  /** From `first` on, tasks ran one after another: each began with the tree its predecessor left, and its paths are
      exactly what it changed. None has been taken back. */
  ghost predicate RanInTurn(tasks: seq<Task>, files: Files, first: nat) {
    forall i :: first <= i < |tasks| ==> !tasks[i].consumed && ChangedExactly(tasks[i], LeftByTask(tasks, files, i))
  }

  lemma RanOneMore(tasks: seq<Task>, task: Task, files: Files, first: nat)
    requires RanInTurn(tasks, task.commit, first) && !task.consumed && ChangedExactly(task, files)
    ensures RanInTurn(tasks + [task], files, first)
  {
    hide ChangedExactly;
    forall i | first <= i < |tasks|
      ensures ChangedExactly((tasks + [task])[i], LeftByTask(tasks + [task], files, i))
    {
      assert LeftByTask(tasks + [task], files, i) == LeftByTask(tasks, task.commit, i);
    }
  }

  /** Restoring exactly what a task changed gives its snapshot. */
  lemma RestoredIsCommit(task: Task, left: Files, paths: seq<Path>)
    requires ChangedExactly(task, left) && forall p :: p in paths <==> p in task.paths
    ensures Restored(left, task.commit, paths, |paths|) == task.commit
  {
    var back := Restored(left, task.commit, paths, |paths|);
    forall p ensures !Differ(back, task.commit, p) {
      RestoredAt(left, task.commit, paths, |paths|, p);
      assert paths[..|paths|] == paths;
      if p !in paths { assert !Differ(task.commit, left, p); }
    }
    NoDifference(back, task.commit);
  }

  /** Taking tasks that ran one after another back in reverse order returns the tree to the first one's snapshot. */
  method RewindTasks(s: Store, first: nat, works: bool) returns (ok: bool)
    requires first < |s.tasks|
    modifies s, s.tree
    ensures ok && old(RanInTurn(s.tasks, s.tree.files, first)) ==> s.tree.files == old(s.tasks)[first].commit
    ensures ok ==> |s.tasks| == |old(s.tasks)| && forall i :: first <= i < |s.tasks| ==> s.tasks[i].consumed
    ensures works && old(s.shadow) && old(RanInTurn(s.tasks, s.tree.files, first)) ==> ok
  {
    var n := |s.tasks|;
    ghost var tasks := s.tasks;
    while n > first
      invariant first <= n <= |tasks| == |s.tasks| && s.shadow == old(s.shadow)
      invariant forall i :: 0 <= i < n ==> s.tasks[i] == tasks[i]
      invariant forall i :: n <= i < |tasks| ==> s.tasks[i].consumed
      invariant old(RanInTurn(s.tasks, s.tree.files, first)) ==>
        s.tree.files == if n == |tasks| then old(s.tree.files) else tasks[n].commit
    {
      ghost var left := s.tree.files;
      var r := s.RewindTask(n, works);
      if !r.TakenOut? { return false; }
      if old(RanInTurn(s.tasks, s.tree.files, first)) {
        assert left == LeftByTask(tasks, old(s.tree.files), n - 1);
        RestoredIsCommit(tasks[n-1], left, r.restored);
      }
      n := n - 1;
    }
    ok := true;
  }

  /** What differs between the tree and a commit, each path once. */
  method ChangedSince(tree: Tree, commit: Files) returns (paths: seq<Path>)
    ensures forall p :: p in paths <==> Differ(commit, tree.files, p)
    ensures forall i, j :: 0 <= i < j < |paths| ==> paths[i] != paths[j]
  {
    paths := [];
    var todo := set p <- commit.Keys + tree.files.Keys | Differ(commit, tree.files, p);
    ghost var all := todo;
    while todo != {}
      invariant todo <= all && (forall p :: p in paths <==> p in all - todo)
      invariant forall i, j :: 0 <= i < j < |paths| ==> paths[i] != paths[j]
      decreases todo
    {
      var p :| p in todo;
      assert p !in paths;
      todo := todo - {p};
      paths := paths + [p];
    }
  }
}
