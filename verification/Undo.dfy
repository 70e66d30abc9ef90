/** The undo log as values: entries, what taking them back does to a tree, and the stack of turns they form
    (internal/checkpoint/checkpoint.go). */
module Undo {
  import opened Decimals

  type Path = string

  type Files = map<Path, string>

  /** One recorded state of a path: absent, or kept under a backup name. */
  datatype Entry = Entry(number: nat, turn: nat, path: Path, existed: bool, backup: string)

  /** A turn that can be taken back, and the tree it goes back to: the one it started from, with any later edit
      that nothing restores. */
  datatype Origin = Origin(turn: nat, files: Files)

  // ---- Backup names ----

  function Zeros(k: nat): string {
    if k == 0 then "" else "0" + Zeros(k - 1)
  }

  /** %06d */
  function Padded(n: nat): string {
    var d := Decimal(n);
    Zeros(if |d| < 6 then 6 - |d| else 0) + d
  }

  function BackupName(n: nat): string {
    Padded(n) + ".bak"
  }

  lemma {:induction false} LeadingZeros(k: nat, d: string)
    requires forall c <- d :: IsDigit(c)
    ensures (forall c <- Zeros(k) + d :: IsDigit(c)) && Value(Zeros(k) + d) == Value(d)
  {
    if k == 0 {
      assert Zeros(0) + d == d;
    } else {
      LeadingZeros(k - 1, d);
      LeadingZero(Zeros(k - 1) + d);
      assert Zeros(k) + d == "0" + (Zeros(k - 1) + d);
    }
  }

  lemma {:induction false} LeadingZero(d: string)
    requires forall c <- d :: IsDigit(c)
    ensures (forall c <- "0" + d :: IsDigit(c)) && Value("0" + d) == Value(d)
  {
    if d == "" {
      assert Value("0") == 10 * Value("0"[..0]) + 0;
    } else {
      LeadingZero(d[..|d|-1]);
      assert ("0" + d)[..|d|] == "0" + d[..|d|-1];
    }
  }

  lemma PaddedValue(n: nat)
    ensures (forall c <- Padded(n) :: IsDigit(c)) && Value(Padded(n)) == n
  {
    DecimalValue(n);
    LeadingZeros(if |Decimal(n)| < 6 then 6 - |Decimal(n)| else 0, Decimal(n));
  }

  /** Different numbers have different backups. */
  lemma BackupNameInjective(m: nat, n: nat)
    requires BackupName(m) == BackupName(n)
    ensures m == n
  {
    hide Padded;
    PaddedValue(m);
    PaddedValue(n);
    var a, b := Padded(m), Padded(n);
    assert a == (a + ".bak")[..|a + ".bak"|-4] == (b + ".bak")[..|b + ".bak"|-4] == b;
  }

  // ---- Taking entries back ----

  function UndoOne(files: Files, e: Entry, backups: map<string, string>): Files {
    if !e.existed then files - {e.path}
    else if e.backup in backups then files[e.path := backups[e.backup]]
    else files
  }

  /** Undo es[k..], newest first. */
  function UndoFrom(files: Files, es: seq<Entry>, backups: map<string, string>, k: nat): Files
    requires k <= |es|
    decreases |es| - k
  {
    if k == |es| then files else UndoOne(UndoFrom(files, es, backups, k + 1), es[k], backups)
  }

  /** The entries of one turn, in order, among the first n. */
  function OfTurn(entries: seq<Entry>, n: nat, turn: nat): seq<Entry>
    requires n <= |entries|
  {
    if n == 0 then [] else OfTurn(entries, n - 1, turn) + if entries[n-1].turn == turn then [entries[n-1]] else []
  }

  function NotOfTurn(entries: seq<Entry>, n: nat, turn: nat): seq<Entry>
    requires n <= |entries|
  {
    if n == 0 then [] else NotOfTurn(entries, n - 1, turn) + if entries[n-1].turn != turn then [entries[n-1]] else []
  }

  function Turn(entries: seq<Entry>, turn: nat): seq<Entry> {
    OfTurn(entries, |entries|, turn)
  }

  /** What taking back one turn makes of a tree: its snapshot, or its entries undone. */
  function TakenBack(entries: seq<Entry>, backups: map<string, string>, snapshots: map<nat, Files>, turn: nat,
    files: Files): Files {
    if turn in snapshots then snapshots[turn] else UndoFrom(files, Turn(entries, turn), backups, 0)
  }

  lemma {:induction false} UndoSnoc(files: Files, es: seq<Entry>, e: Entry, backups: map<string, string>, k: nat)
    requires k <= |es|
    ensures UndoFrom(files, es + [e], backups, k) == UndoFrom(UndoOne(files, e, backups), es, backups, k)
    decreases |es| - k
  {
    if k < |es| {
      UndoSnoc(files, es, e, backups, k + 1);
    } else {
      assert UndoFrom(files, es + [e], backups, k + 1) == files;
    }
  }

  /** Undoing reads nothing but the backups its entries name. */
  lemma {:induction false} UndoFrame(files: Files, es: seq<Entry>, b: map<string, string>, c: map<string, string>,
    k: nat)
    requires k <= |es|
    requires forall e <- es :: e.existed ==> e.backup in b && e.backup in c && b[e.backup] == c[e.backup]
    ensures UndoFrom(files, es, b, k) == UndoFrom(files, es, c, k)
    decreases |es| - k
  {
    if k < |es| {
      UndoFrame(files, es, b, c, k + 1);
      assert es[k] in es;
    }
  }

  /** A path without an entry is left alone. */
  lemma {:induction false} UndoLeavesAlone(files: Files, es: seq<Entry>, backups: map<string, string>, k: nat,
    path: Path)
    requires k <= |es| && forall e <- es :: e.path != path
    ensures var u := UndoFrom(files, es, backups, k);
            (path in u <==> path in files) && (path in files ==> u[path] == files[path])
    decreases |es| - k
  {
    if k < |es| {
      UndoLeavesAlone(files, es, backups, k + 1, path);
      assert es[k] in es;
    }
  }

  // ---- Path by path ----

  predicate Differ(f: Files, g: Files, path: Path) {
    (path in f) != (path in g) || (path in f && f[path] != g[path])
  }

  lemma NoDifference(f: Files, g: Files)
    requires forall p :: !Differ(f, g, p)
    ensures f == g
  {
    assert forall p :: (p in f) == (p in g) by {
      forall p ensures (p in f) == (p in g) { assert !Differ(f, g, p); }
    }
    forall p | p in f ensures f[p] == g[p] { assert !Differ(f, g, p); }
  }

  /** Undoing brings a recorded path back whatever stands there now, and leaves the others. */
  lemma {:induction false} UndoneAlike(f: Files, g: Files, es: seq<Entry>, backups: map<string, string>, k: nat,
    path: Path)
    requires k <= |es| && forall e <- es :: e.existed ==> e.backup in backups
    requires !Differ(f, g, path) || exists i :: k <= i < |es| && es[i].path == path
    ensures !Differ(UndoFrom(f, es, backups, k), UndoFrom(g, es, backups, k), path)
    decreases |es| - k
  {
    if k < |es| {
      assert es[k] in es;
      if es[k].path != path { UndoneAlike(f, g, es, backups, k + 1, path); }
    }
  }

  // ---- Filtering ----

  lemma {:induction false} TurnPrefix(entries: seq<Entry>, e: Entry, n: nat, turn: nat)
    requires n <= |entries|
    ensures OfTurn(entries + [e], n, turn) == OfTurn(entries, n, turn)
  {
    if n > 0 { TurnPrefix(entries, e, n - 1, turn); }
  }

  lemma TurnSnoc(entries: seq<Entry>, e: Entry, turn: nat)
    ensures Turn(entries + [e], turn) == Turn(entries, turn) + if e.turn == turn then [e] else []
  {
    TurnPrefix(entries, e, |entries|, turn);
  }

  lemma {:induction false} TurnMembers(entries: seq<Entry>, n: nat, turn: nat)
    requires n <= |entries|
    ensures forall e <- OfTurn(entries, n, turn) :: e in entries && e.turn == turn
    ensures forall i :: 0 <= i < n && entries[i].turn == turn ==> entries[i] in OfTurn(entries, n, turn)
  {
    if n > 0 { TurnMembers(entries, n - 1, turn); }
  }

  lemma {:induction false} OthersMembers(entries: seq<Entry>, n: nat, turn: nat)
    requires n <= |entries|
    ensures forall e <- NotOfTurn(entries, n, turn) :: e in entries && e.turn != turn
    ensures forall i :: 0 <= i < n && entries[i].turn != turn ==> entries[i] in NotOfTurn(entries, n, turn)
  {
    if n > 0 { OthersMembers(entries, n - 1, turn); }
  }

  /** Dropping one turn leaves the others' entries as they were. */
  lemma {:induction false} TurnOfOthers(entries: seq<Entry>, n: nat, gone: nat, turn: nat)
    requires n <= |entries| && turn != gone
    ensures Turn(NotOfTurn(entries, n, gone), turn) == OfTurn(entries, n, turn)
  {
    if n > 0 {
      TurnOfOthers(entries, n - 1, gone, turn);
      if entries[n-1].turn != gone { TurnSnoc(NotOfTurn(entries, n - 1, gone), entries[n-1], turn); }
      else { assert NotOfTurn(entries, n, gone) == NotOfTurn(entries, n - 1, gone); }
    }
  }
}
