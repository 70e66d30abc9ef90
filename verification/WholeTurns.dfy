/** Whole turns, tools and other hands in any order, and their undo (internal/checkpoint/checkpoint.go). */
module WholeTurns {
  import opened Undo
  import opened TurnStack
  import opened OutsideEdits
  import opened Checkpoints

  /** What happens in a turn: a tool changes a path, or someone else does. */
  datatype Step = Tool(path: Path, content: Content) | Other(path: Path, content: Content)

  function Taken(steps: seq<Step>, n: nat): set<Path>
    requires n <= |steps|
  {
    if n == 0 then {} else Taken(steps, n - 1) + if steps[n-1].Tool? then {steps[n-1].path} else {}
  }

  /** The run without its tools, and without what others did to a path after a tool had changed it. */
  function WithoutTools(files: Files, steps: seq<Step>, n: nat): Files
    requires n <= |steps|
  {
    if n == 0 then files else
      var before, step := WithoutTools(files, steps, n - 1), steps[n-1];
      if step.Other? && step.path !in Taken(steps, n - 1) then Put(before, step.path, step.content) else before
  }

  /** The steps of the first n turns, one after another. */
  function Joined(turns: seq<seq<Step>>, n: nat): seq<Step>
    requires n <= |turns|
  {
    if n == 0 then [] else Joined(turns, n - 1) + turns[n-1]
  }

  predicate Touched(steps: seq<Step>, n: nat)
    requires n <= |steps|
  {
    exists i :: 0 <= i < n && steps[i].Tool?
  }

  /** A run that began after m recoverable turns with turn number `from`, kept by copies: which paths it recorded, what
      it goes back to, and how many of its turns are recoverable. */
  ghost predicate Running(s: Store, m: nat, from: nat, taken: set<Path>, back: Files, count: nat)
    reads s, s.tree
  {
    && s.Intact() && !s.shadow && (forall t <- s.snapshots :: t < from)
    && (forall p :: Reverts(s.TheLog(), from, p) <==> p in taken)
    && |s.origins| == m + count && (forall i :: 0 <= i < m ==> s.origins[i].turn < from)
    && (taken == {} <==> count == 0)
    && if count == 0 then s.tree.files == back else s.origins[m].turn >= from && s.origins[m].files == back
  }

  /** Within one of its turns, in which a tool has or has not done something yet. */
  ghost predicate InRun(s: Store, m: nat, from: nat, taken: set<Path>, back: Files, count: nat, touched: bool)
    reads s, s.tree
  {
    Running(s, m, from, taken, back, count) && from <= s.turn && (HasOrigin(s.origins, s.turn) <==> touched)
  }

  /** A tool's step in such a run: record, then write. */
  method ToolStep(s: Store, step: Step, works: bool, ghost m: nat, ghost from: nat, ghost taken: set<Path>,
                  ghost back: Files, ghost count: nat, ghost touched: bool)
    returns (ok: bool)
    requires step.Tool? && InRun(s, m, from, taken, back, count, touched)
    modifies s`number, s`entries, s`backups, s`origins, s.tree
    ensures ok ==> InRun(s, m, from, taken + {step.path}, back, if touched then count else count + 1, true)
    ensures works ==> ok
  {
    hide Filed, Stacked, Chained, Put, Reverts, Covered;
    ok := s.Record(step.path, works);
    if !ok { return; }
    RevertsToo(old(s.TheLog()), old(s.EntryFor(step.path)), old(s.ContentOf(step.path)), from);
    s.Change(step.path, step.content);
    assert touched || s.origins[|s.origins|-1].turn == s.turn;
  }

  /** Anyone else's step: a path no tool has changed in the run keeps what it now holds when the run is taken back. */
  method OtherStep(s: Store, step: Step, ghost m: nat, ghost from: nat, ghost taken: set<Path>, ghost back: Files,
                   ghost count: nat, ghost touched: bool)
    requires step.Other? && InRun(s, m, from, taken, back, count, touched)
    modifies s`origins, s.tree
    ensures InRun(s, m, from, taken, if step.path in taken then back else Put(back, step.path, step.content), count,
      touched)
  {
    hide Filed, Stacked, Chained, Put, Reverts, Rebased;
    ghost var before, was := s.tree.files, s.origins;
    s.Change(step.path, step.content);
    SameTurns(was, s.origins, s.turn);
    if count > 0 {
      RevertsFromFirst(s.TheLog(), was, m, from, step.path);
      if step.path !in taken { EditedOrigin(s.TheLog(), was, before, step.path, step.content, m); }
    }
  }

  lemma SameTurns(a: seq<Origin>, b: seq<Origin>, turn: nat)
    requires |a| == |b| && forall i :: 0 <= i < |a| ==> a[i].turn == b[i].turn
    ensures HasOrigin(a, turn) <==> HasOrigin(b, turn)
  {
    if HasOrigin(a, turn) {
      var i :| 0 <= i < |a| && a[i].turn == turn;
      assert b[i].turn == turn;
    }
  }

  /** Nothing is recorded between the run's first number and its first recoverable turn. */
  lemma RevertsFromFirst(log: Log, origins: seq<Origin>, m: nat, from: nat, path: Path)
    requires Stacked(log, origins) && m < |origins| && from <= origins[m].turn
    requires forall i :: 0 <= i < m ==> origins[i].turn < from
    ensures Reverts(log, from, path) <==> Reverts(log, origins[m].turn, path)
  {
    hide Turn;
    forall t: nat | HasOrigin(origins, t) && t >= from ensures t >= origins[m].turn {
      var i :| 0 <= i < |origins| && origins[i].turn == t;
    }
  }

  lemma EditedOrigin(log: Log, origins: seq<Origin>, files: Files, path: Path, content: Content, i: nat)
    requires Recoverable(log, origins, files) && i < |origins| && !Reverts(log, origins[i].turn, path)
    ensures Rebased(log, origins, Put(files, path, content))[i].files == Put(origins[i].files, path, content)
  {
    hide Recoverable, Reverts, Carried;
    var files' := Put(files, path, content);
    OneEdit(log, origins, files, files', path, i);
    var moved := Rebased(log, origins, files')[i].files;
    forall p ensures !Differ(moved, Put(origins[i].files, path, content), p) {
      if p != path { assert !Differ(moved, origins[i].files, p); }
    }
    NoDifference(moved, Put(origins[i].files, path, content));
  }

  lemma RevertsToo(log: Log, e: Entry, content: string, from: nat)
    requires e.turn >= from
    ensures forall p :: Reverts(Added(log, e, content), from, p) <==> Reverts(log, from, p) || p == e.path
  {
    assert Added(log, e, content).entries[|log.entries|] == e;
    forall x | x in log.entries ensures x in Added(log, e, content).entries { }
  }

  /** A new turn has recorded nothing, and the run goes on. */
  lemma NextTurn(log: Log, origins: seq<Origin>, from: nat)
    requires Filed(log) && Stacked(log, origins)
    ensures var next := log.(turn := log.turn + 1);
            && !HasOrigin(origins, next.turn) && (forall t <- log.snapshots :: t < next.turn)
            && (forall i :: 0 <= i < |origins| ==> origins[i].turn < next.turn)
            && (forall p :: Reverts(next, from, p) <==> Reverts(log, from, p))
            && (forall p :: !Reverts(log, next.turn, p))
  {
    hide BackupName, Turn;
    forall e | e in log.entries ensures e.turn <= log.turn {
      var i :| 0 <= i < |log.entries| && log.entries[i] == e;
    }
  }

  /** What one more step of a turn does to the run. */
  lemma OneMoreStep(all: seq<Step>, start: Files, at: nat, i: nat, steps: seq<Step>)
    requires at + |steps| <= |all| && all[at..at+|steps|] == steps && i < |steps|
    ensures Touched(steps, i + 1) <==> Touched(steps, i) || steps[i].Tool?
    ensures var taken, back := Taken(all, at + i), WithoutTools(start, all, at + i);
      && Taken(all, at + (i + 1)) == (if steps[i].Tool? then taken + {steps[i].path} else taken)
      && WithoutTools(start, all, at + (i + 1)) ==
         if steps[i].Tool? || steps[i].path in taken then back else Put(back, steps[i].path, steps[i].content)
  {
    hide Put;
    assert all[at+i] == all[at..at+|steps|][i] == steps[i];
    assert at + (i + 1) == at + i + 1;
    if Touched(steps, i + 1) && !Touched(steps, i) {
      var j :| 0 <= j < i + 1 && steps[j].Tool?;
      assert j == i;
    }
  }

  /** One turn of a run. */
  method RunTurn(s: Store, steps: seq<Step>, works: bool, ghost all: seq<Step>, ghost at: nat, ghost start: Files,
                 ghost m: nat, ghost from: nat, ghost count: nat)
    returns (ok: bool)
    requires at + |steps| <= |all| && all[at..at+|steps|] == steps
    requires InRun(s, m, from, Taken(all, at), WithoutTools(start, all, at), count, false)
    modifies s`number, s`entries, s`backups, s`origins, s.tree
    ensures works ==> ok
    ensures ok ==> var touched := Touched(steps, |steps|);
      InRun(s, m, from, Taken(all, at + |steps|), WithoutTools(start, all, at + |steps|),
            if touched then count + 1 else count, touched)
  {
    hide InRun, Taken, WithoutTools, Put;
    for i := 0 to |steps|
      invariant InRun(s, m, from, Taken(all, at + i), WithoutTools(start, all, at + i),
                      if Touched(steps, i) then count + 1 else count, Touched(steps, i))
    {
      ghost var taken, back, touched := Taken(all, at + i), WithoutTools(start, all, at + i), Touched(steps, i);
      OneMoreStep(all, start, at, i, steps);
      match steps[i] {
        case Tool(path, content) =>
          var done := ToolStep(s, steps[i], works, m, from, taken, back, if touched then count + 1 else count, touched);
          if !done { return false; }
        case Other(path, content) =>
          OtherStep(s, steps[i], m, from, taken, back, if touched then count + 1 else count, touched);
      }
    }
    ok := true;
  }

  lemma JoinedAt(turns: seq<seq<Step>>, t: nat, n: nat)
    requires t < n <= |turns|
    ensures var at := |Joined(turns, t)|;
            && at + |turns[t]| == |Joined(turns, t + 1)| <= |Joined(turns, n)|
            && Joined(turns, n)[at..at+|turns[t]|] == turns[t]
  {
    if t + 1 < n { JoinedAt(turns, t, n - 1); }
  }

  method AnyTool(steps: seq<Step>) returns (touched: bool)
    ensures touched <==> Touched(steps, |steps|)
  {
    for i := 0 to |steps|
      invariant !Touched(steps, i)
    {
      if steps[i].Tool? { return true; }
    }
    return false;
  }

  /** Undoing a run of turns, in a session that keeps copies, leaves the tree as the run would have left it without its
      tools. A turn in which no tool changed anything is not there to be undone. */
  method TurnsThenUndo(s: Store, turns: seq<seq<Step>>, works: bool) returns (undone: bool)
    requires s.Intact() && !s.shadow
    modifies s, s.tree
    ensures undone ==> var steps := Joined(turns, |turns|);
      s.tree.files == WithoutTools(old(s.tree.files), steps, |steps|) && s.Intact() && |s.origins| == |old(s.origins)|
    ensures works ==> undone
  {
    hide Running, Taken, WithoutTools;
    ghost var start, m, from, all := s.tree.files, |s.origins|, s.turn + 1, Joined(turns, |turns|);
    var count := 0;
    RunBegins(s, all);
    for t := 0 to |turns|
      invariant |Joined(turns, t)| <= |all| && s.turn == from - 1 + t
      invariant Running(s, m, from, Taken(all, |Joined(turns, t)|), WithoutTools(start, all, |Joined(turns, t)|), count)
    {
      ghost var at := |Joined(turns, t)|;
      JoinedAt(turns, t, |turns|);
      BeginNext(s, works, m, from, Taken(all, at), WithoutTools(start, all, at), count);
      var ok := RunTurn(s, turns[t], works, all, at, start, m, from, count);
      if !ok { return false; }
      var touched := AnyTool(turns[t]);
      if touched { count := count + 1; }
    }
    undone := RewindRun(s, works, m, from, Taken(all, |all|), WithoutTools(start, all, |all|), count);
  }

  lemma RunBegins(s: Store, steps: seq<Step>)
    requires s.Intact() && !s.shadow
    ensures Running(s, |s.origins|, s.turn + 1, Taken(steps, 0), WithoutTools(s.tree.files, steps, 0), 0)
  {
    hide Filed, Stacked, Chained, Reverts;
    NextTurn(s.TheLog(), s.origins, s.turn + 1);
  }

  method BeginNext(s: Store, works: bool, ghost m: nat, ghost from: nat, ghost taken: set<Path>, ghost back: Files,
                   ghost count: nat)
    requires Running(s, m, from, taken, back, count) && from <= s.turn + 1
    modifies s`turn, s`shadow, s`snapshots, s`origins
    ensures InRun(s, m, from, taken, back, count, false) && s.turn == old(s.turn) + 1
  {
    hide Filed, Stacked, Chained, Reverts;
    NextTurn(s.TheLog(), s.origins, from);
    s.BeginTurn(works);
  }

  method RewindRun(s: Store, works: bool, ghost m: nat, ghost from: nat, ghost taken: set<Path>, ghost back: Files,
                   count: nat)
    returns (undone: bool)
    requires Running(s, m, from, taken, back, count)
    modifies s, s.tree
    ensures undone ==> s.tree.files == back && s.Intact() && |s.origins| == m
    ensures works ==> undone
  {
    hide Filed, Chained, Reverts;
    forall i | m <= i < |s.origins| ensures s.origins[i].turn !in s.snapshots {
      if i > m { assert s.origins[m].turn < s.origins[i].turn; }
    }
    undone := s.RewindTurns(count, works);
  }

  /** In particular, undoing one turn. */
  method TurnThenUndo(s: Store, steps: seq<Step>, works: bool) returns (undone: bool)
    requires s.Intact() && !s.shadow
    modifies s, s.tree
    ensures undone ==>
      s.tree.files == WithoutTools(old(s.tree.files), steps, |steps|) && s.Intact() && |s.origins| == |old(s.origins)|
    ensures works ==> undone
  {
    assert Joined([steps], 1) == Joined([steps], 0) + steps == steps;
    undone := TurnsThenUndo(s, [steps], works);
  }
}
