/** Edits the log knows nothing of: the user's own, or a shell command's, at any time
    (internal/checkpoint/checkpoint.go). */
module OutsideEdits {
  import opened Undo
  import opened TurnStack

  /** Taking this turn and every later one back decides what the path holds: one of them was snapshotted or recorded
      it. */
  ghost predicate Reverts(log: Log, turn: nat, path: Path) {
    (exists t <- log.snapshots :: t >= turn) || exists e <- log.entries :: e.turn >= turn && e.path == path
  }

  /** What a turn goes back to when the tree is now `files`: recorded paths as they were, all others as they are now. */
  ghost function Carried(log: Log, origin: Origin, files: Files): Files {
    map p | p in origin.files.Keys + files.Keys && p in (if Reverts(log, origin.turn, p) then origin.files else files)
      :: (if Reverts(log, origin.turn, p) then origin.files else files)[p]
  }

  ghost function Rebased(log: Log, origins: seq<Origin>, files: Files): (r: seq<Origin>)
    ensures |r| == |origins|
    ensures forall i :: 0 <= i < |origins| ==> r[i] == Origin(origins[i].turn, Carried(log, origins[i], files))
  {
    seq(|origins|, i requires 0 <= i < |origins| => Origin(origins[i].turn, Carried(log, origins[i], files)))
  }

  lemma CarriedAt(log: Log, origin: Origin, files: Files, p: Path)
    ensures !Differ(Carried(log, origin, files), if Reverts(log, origin.turn, p) then origin.files else files, p)
  {
    hide Reverts;
  }

  /** Whatever becomes of the tree, by whomever, every recorded turn can still be taken back: to the tree it went back
      to before, with the change carried over to the paths it does not restore. */
  lemma EditKeeps(log: Log, origins: seq<Origin>, files: Files, files': Files)
    requires Recoverable(log, origins, files)
    ensures Recoverable(log, Rebased(log, origins, files'), files')
  {
    hide TakeBack, Filed, Stacked, Carried, Reverts;
    var moved := Rebased(log, origins, files');
    SameTurnsStacked(log, origins, moved);
    forall i | 0 <= i < |moved| ensures TakeBack(log, moved[i].turn, LeftBy(moved, files', i)) == moved[i].files {
      forall p ensures !Differ(TakeBack(log, moved[i].turn, LeftBy(moved, files', i)), moved[i].files, p) {
        EditKeepsAt(log, origins, files, files', i, p);
      }
      NoDifference(TakeBack(log, moved[i].turn, LeftBy(moved, files', i)), moved[i].files);
    }
  }

  lemma SameTurnsStacked(log: Log, origins: seq<Origin>, others: seq<Origin>)
    requires Stacked(log, origins) && |others| == |origins|
    requires forall i :: 0 <= i < |origins| ==> others[i].turn == origins[i].turn
    ensures Stacked(log, others)
  {
    hide Turn;
    forall t | HasOrigin(origins, t) ensures HasOrigin(others, t) {
      var i :| 0 <= i < |origins| && origins[i].turn == t;
      assert others[i].turn == t;
    }
  }

  lemma EditKeepsAt(log: Log, origins: seq<Origin>, files: Files, files': Files, i: nat, p: Path)
    requires Recoverable(log, origins, files) && i < |origins|
    ensures var moved := Rebased(log, origins, files');
            !Differ(TakeBack(log, moved[i].turn, LeftBy(moved, files', i)), moved[i].files, p)
  {
    hide Filed, Stacked, Carried, Reverts, UndoFrom, OfTurn;
    var moved, turn := Rebased(log, origins, files'), origins[i].turn;
    CarriedAt(log, origins[i], files', p);
    LeftByRebased(log, origins, files, files', i, p);
    RevertsHere(log, origins, i, p);
    assert TakeBack(log, turn, LeftBy(origins, files, i)) == origins[i].files;
    if turn !in log.snapshots {
      var es := Turn(log.entries, turn);
      EntriesOfTurn(log, turn);
      if RecordedIn(log, turn, p) || RevertsLater(log, origins, i, p) {
        RecordedIsMember(log, turn, p);
        UndoneAlike(LeftBy(moved, files', i), LeftBy(origins, files, i), es, log.backups, 0, p);
      } else {
        UndoLeavesAlone(LeftBy(moved, files', i), es, log.backups, 0, p);
      }
    }
  }

  ghost predicate RecordedIn(log: Log, turn: nat, path: Path) {
    exists e <- Turn(log.entries, turn) :: e.path == path
  }

  /** The turns after the i-th restore the path. */
  ghost predicate RevertsLater(log: Log, origins: seq<Origin>, i: nat, path: Path)
    requires i < |origins|
  {
    i + 1 < |origins| && Reverts(log, origins[i+1].turn, path)
  }

  lemma RecordedIsMember(log: Log, turn: nat, path: Path)
    ensures RecordedIn(log, turn, path) ==>
      exists i :: 0 <= i < |Turn(log.entries, turn)| && Turn(log.entries, turn)[i].path == path
  {
    hide OfTurn;
  }

  /** A path is restored from a turn on exactly when that turn restores it or the later ones do. */
  lemma RevertsHere(log: Log, origins: seq<Origin>, i: nat, path: Path)
    requires Stacked(log, origins) && i < |origins|
    ensures Reverts(log, origins[i].turn, path) <==>
      origins[i].turn in log.snapshots || RecordedIn(log, origins[i].turn, path) || RevertsLater(log, origins, i, path)
  {
    hide OfTurn;
    var turn := origins[i].turn;
    TurnMembers(log.entries, |log.entries|, turn);
    if Reverts(log, turn, path) {
      if t :| t in log.snapshots && t >= turn {
        LaterOrigin(origins, i, t);
      } else {
        var e :| e in log.entries && e.turn >= turn && e.path == path;
        LaterOrigin(origins, i, e.turn);
        var k :| 0 <= k < |log.entries| && log.entries[k] == e;
      }
    }
    if RevertsLater(log, origins, i, path) { assert turn < origins[i+1].turn; }
  }

  lemma LaterOrigin(origins: seq<Origin>, i: nat, turn: nat)
    requires forall j, k :: 0 <= j < k < |origins| ==> origins[j].turn < origins[k].turn
    requires i < |origins| && origins[i].turn <= turn && HasOrigin(origins, turn)
    ensures turn == origins[i].turn || (i + 1 < |origins| && origins[i+1].turn <= turn)
  {
    var k :| 0 <= k < |origins| && origins[k].turn == turn;
  }

  lemma LeftByRebased(log: Log, origins: seq<Origin>, files: Files, files': Files, i: nat, p: Path)
    requires i < |origins|
    ensures var moved := Rebased(log, origins, files');
            !Differ(LeftBy(moved, files', i),
                if RevertsLater(log, origins, i, p) then LeftBy(origins, files, i) else files', p)
  {
    hide Carried, Reverts;
    if i + 1 < |origins| { CarriedAt(log, origins[i+1], files', p); }
  }

  /** The log and the tree decide what its turns go back to. */
  lemma OriginsDetermined(log: Log, a: seq<Origin>, b: seq<Origin>, files: Files)
    requires Chained(log, a, files) && Chained(log, b, files) && |a| == |b|
    requires forall i :: 0 <= i < |a| ==> a[i].turn == b[i].turn
    ensures a == b
  {
    hide TakeBack;
    var n := |a|;
    while n > 0
      invariant 0 <= n <= |a| && a[n..] == b[n..]
    {
      assert LeftBy(a, files, n - 1) == LeftBy(b, files, n - 1) by {
        if n < |a| { assert a[n] == a[n..][0] == b[n..][0] == b[n]; }
      }
      assert a[n-1] == b[n-1];
      n := n - 1;
    }
    assert a[0..] == a && b[0..] == b;
  }

  lemma RebasedOnItself(log: Log, origins: seq<Origin>, files: Files)
    requires Recoverable(log, origins, files)
    ensures Rebased(log, origins, files) == origins
  {
    hide TakeBack, Filed, Stacked, Carried;
    EditKeeps(log, origins, files, files);
    OriginsDetermined(log, origins, Rebased(log, origins, files), files);
  }

  /** Taking turns back leaves every path alone that none of them recorded. */
  lemma OutsideStays(log: Log, origins: seq<Origin>, files: Files, i: nat, path: Path)
    requires Recoverable(log, origins, files) && i < |origins| && !Reverts(log, origins[i].turn, path)
    ensures !Differ(origins[i].files, files, path)
  {
    hide TakeBack, Filed, Stacked, Carried, Reverts, Recoverable;
    RebasedOnItself(log, origins, files);
    CarriedAt(log, origins[i], files, path);
  }

  lemma OutsideAllStays(log: Log, origins: seq<Origin>, files: Files, i: nat)
    requires Recoverable(log, origins, files) && i < |origins|
    ensures forall p :: !Reverts(log, origins[i].turn, p) ==> !Differ(origins[i].files, files, p)
  {
    hide Recoverable, Reverts;
    forall p ensures !Reverts(log, origins[i].turn, p) ==> !Differ(origins[i].files, files, p) {
      if !Reverts(log, origins[i].turn, p) { OutsideStays(log, origins, files, i, p); }
    }
  }

  /** An edit of one path moves the trees to go back to at that path only, and those that restore it not at all. */
  lemma OneEdit(log: Log, origins: seq<Origin>, files: Files, files': Files, path: Path, i: nat)
    requires Recoverable(log, origins, files) && i < |origins| && forall p :: p != path ==> !Differ(files, files', p)
    ensures var moved := Rebased(log, origins, files')[i].files;
            && (forall p :: p != path || Reverts(log, origins[i].turn, p) ==> !Differ(moved, origins[i].files, p))
            && (!Reverts(log, origins[i].turn, path) ==> !Differ(moved, files', path))
            && (Reverts(log, origins[i].turn, path) ==> moved == origins[i].files)
  {
    hide Reverts, Carried, Recoverable;
    var moved := Rebased(log, origins, files')[i].files;
    forall p ensures !Differ(moved, if Reverts(log, origins[i].turn, p) then origins[i].files else files', p) {
      CarriedAt(log, origins[i], files', p);
    }
    forall p | p != path || Reverts(log, origins[i].turn, p) ensures !Differ(moved, origins[i].files, p) {
      if !Reverts(log, origins[i].turn, p) {
        OutsideStays(log, origins, files, i, p);
        assert !Differ(files, files', p);
      }
    }
    if Reverts(log, origins[i].turn, path) { NoDifference(moved, origins[i].files); }
  }

  /** So an edit the current turn can undo moves none of them. */
  lemma CoveredMovesNothing(log: Log, origins: seq<Origin>, files: Files, files': Files, path: Path)
    requires Recoverable(log, origins, files) && Covered(log, path) && forall p :: p != path ==>
      !Differ(files, files', p)
    ensures Rebased(log, origins, files') == origins
  {
    hide Carried, TakeBack, Filed, Turn;
    forall i | 0 <= i < |origins| ensures Rebased(log, origins, files')[i] == origins[i] {
      if log.turn !in log.snapshots {
        var k :| 0 <= k < |log.entries| && log.entries[k].turn == log.turn && log.entries[k].path == path;
        assert log.entries[k] in log.entries;
      }
      assert Reverts(log, origins[i].turn, path);
      OneEdit(log, origins, files, files', path, i);
    }
  }

  /** Under a snapshot of the current turn no change moves any of them. */
  lemma SnapshotMovesNothing(log: Log, origins: seq<Origin>, files': Files)
    requires Stacked(log, origins) && log.turn in log.snapshots
    ensures Rebased(log, origins, files') == origins
  {
    hide Carried, Turn;
    forall i | 0 <= i < |origins| ensures Rebased(log, origins, files')[i] == origins[i] {
      forall p ensures !Differ(Carried(log, origins[i], files'), origins[i].files, p) {
        assert Reverts(log, origins[i].turn, p);
        CarriedAt(log, origins[i], files', p);
      }
      NoDifference(Carried(log, origins[i], files'), origins[i].files);
    }
  }
}
