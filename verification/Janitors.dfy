/** Any number of sweeps and prunes at once: each selects and commits under the lock, and removes files in between. */
module Janitors {
  import opened Wrappers
  import opened CacheIndex
  import opened CacheSweep
  import opened HistoryPrune

  /** A prune remembers its candidate sessions and the index rows it listed their files from. */
  datatype Kind = SweepKind | PruneKind(sids: set<string>, listed: Table)

  datatype Janitor = Janitor(kind: Kind, todo: seq<string>, removed: seq<string>, failed: set<string>)

  datatype World = World(table: Table, disk: set<string>, janitors: map<nat, Janitor>)

  datatype Step =
    | StartSweep(id: nat, victims: seq<string>)
    | StartPrune(id: nat, sids: set<string>, files: seq<string>)
    | Remove(id: nat, succeeds: bool)
    | Commit(id: nat, now: int)
    | Mark(session: string, now: int)
    | Arrive(path: string, session: string, size: nat, now: int)

  /** Selections are arbitrary here, so that no-orphan rests on the phases alone. */
  ghost predicate CanStep(w: World, step: Step) {
    match step
    case StartSweep(id, _) => id !in w.janitors
    case StartPrune(id, sids, files) => id !in w.janitors && FilesOf(files, w.table, sids)
    case Remove(id, _) => id in w.janitors
    case Commit(id, _) => id in w.janitors && w.janitors[id].todo == []
    case Mark(_, _) => true
    case Arrive(_, _, _, _) => true
  }

  /** What one janitor sees of the world. */
  function StateOf(w: World, j: Janitor): State {
    State(w.table, w.disk, j.todo, j.removed, j.failed)
  }

  function Committed(w: World, j: Janitor, now: int): Table {
    match j.kind
    case SweepKind => RowsAfter(w.table, j.removed, now)
    case PruneKind(sids, listed) => WithoutSessions(w.table, Deleted(listed, sids, StateOf(w, j), now))
  }

  ghost function Next(w: World, step: Step): World
    requires CanStep(w, step)
  {
    match step
    case StartSweep(id, victims) => w.(janitors := w.janitors[id := Janitor(SweepKind, victims, [], {})])
    case StartPrune(id, sids, files) =>
      w.(janitors := w.janitors[id := Janitor(PruneKind(sids, w.table), files, [], {})])
    case Remove(id, succeeds) =>
      var j := w.janitors[id];
      var s := Act(StateOf(w, j), TryRemove(succeeds));
      w.(disk := s.disk, janitors := w.janitors[id := Janitor(j.kind, s.todo, s.removed, s.failed)])
    case Commit(id, now) =>
      World(Committed(w, w.janitors[id], now), w.disk, w.janitors - {id})
    case Mark(session, now) => w.(table := MarkInjected(w.table, session, now))
    case Arrive(path, session, size, now) =>
      w.(table := Register(w.table, path, session, size, now), disk := w.disk + {path})
  }

  /** The state after a run; steps that are not possible are skipped. */
  ghost function Run(w: World, steps: seq<Step>): World {
    if steps == [] then w
    else
      var before := Run(w, steps[..|steps| - 1]);
      if CanStep(before, steps[|steps| - 1]) then Next(before, steps[|steps| - 1]) else before
  }

  predicate Arrives(steps: seq<Step>, path: string) {
    exists i :: 0 <= i < |steps| && steps[i].Arrive? && steps[i].path == path
  }

  // ----- the invariant of one path that does not arrive again -----

  /** What janitor `j` knows of the path: removed means gone, and a prune of its session has it on its list. */
  ghost predicate Careful(w: World, j: Janitor, path: string) {
    && (path in j.removed ==> path !in w.disk)
    && (j.kind.PruneKind? && path in w.table && w.table[path].session in j.kind.sids ==>
          && path in j.kind.listed && j.kind.listed[path].session == w.table[path].session
          && (path in j.todo || path in j.removed || path in j.failed))
  }

  ghost predicate Safe(w: World, path: string) {
    && (path in w.disk ==> path in w.table)
    && (forall id :: id in w.janitors ==> Careful(w, w.janitors[id], path))
  }

  lemma RemoveKeepsSafe(w: World, id: nat, succeeds: bool, path: string)
    requires Safe(w, path) && id in w.janitors
    ensures Safe(Next(w, Remove(id, succeeds)), path)
  {
    var j := w.janitors[id];
    assert Careful(w, j, path);
    assert j.todo != [] ==> j.todo == [j.todo[0]] + j.todo[1..];
  }

  lemma CommitKeepsSafe(w: World, id: nat, now: int, path: string)
    requires Safe(w, path) && CanStep(w, Commit(id, now))
    ensures Safe(Next(w, Commit(id, now)), path)
  {
    var j := w.janitors[id];
    assert Careful(w, j, path);
    if j.kind.PruneKind? && path in w.table {
      RowOfDeleted(j.kind.listed, j.kind.sids, StateOf(w, j), now, path);
    }
    assert path in w.disk && path in w.table ==> path in Committed(w, j, now);
  }

  lemma StepKeepsSafe(w: World, step: Step, path: string)
    requires Safe(w, path) && CanStep(w, step) && !(step.Arrive? && step.path == path)
    ensures Safe(Next(w, step), path)
    ensures path in Next(w, step).disk ==> path in w.disk
    ensures path in Next(w, step).table ==>
            path in w.table && Next(w, step).table[path].session == w.table[path].session
  {
    match step
    case Remove(id, succeeds) => RemoveKeepsSafe(w, id, succeeds, path);
    case Commit(id, now) => CommitKeepsSafe(w, id, now, path);
    case StartSweep(_, _) =>
    case StartPrune(_, _, _) =>
    case Mark(_, _) =>
    case Arrive(_, _, _, _) =>
  }

  lemma {:induction false} RunKeepsSafe(w: World, steps: seq<Step>, path: string)
    requires Safe(w, path) && !Arrives(steps, path)
    ensures Safe(Run(w, steps), path)
    ensures path in Run(w, steps).disk ==> path in w.disk
    ensures path in Run(w, steps).table ==>
            path in w.table && Run(w, steps).table[path].session == w.table[path].session
  {
    if steps == [] {
    } else {
      var n := |steps| - 1;
      var before := Run(w, steps[..n]);
      RunKeepsSafe(w, steps[..n], path);
      if CanStep(before, steps[n]) {
        StepKeepsSafe(before, steps[n], path);
      }
    }
  }

  /** No orphan, whatever janitors overlap: a file that does not arrive again is indexed as long as it is on disk. */
  lemma NoOrphan(table: Table, disk: set<string>, steps: seq<Step>, path: string)
    requires path in table && !Arrives(steps, path)
    ensures var w := Run(World(table, disk, map[]), steps);
            path in w.disk ==> path in disk && path in w.table && w.table[path].session == table[path].session
  {
    RunKeepsSafe(World(table, disk, map[]), steps, path);
  }

  /** No janitor's commit drops the row of a file whose mark is inside the window, whatever it selected before. */
  lemma CommitSparesMarked(w: World, id: nat, now: int, path: string)
    requires CanStep(w, Commit(id, now)) && path in w.table && Locked(w.table[path], now)
    ensures path in Next(w, Commit(id, now)).table && Next(w, Commit(id, now)).table[path] == w.table[path]
  {
    var j := w.janitors[id];
    if j.kind.PruneKind? {
      RowOfDeleted(j.kind.listed, j.kind.sids, StateOf(w, j), now, path);
    }
  }

  /**
   The rows another janitor deletes do leave during a sweep's unlocked phase: a prune that begins and ends inside
   it.
   */
  lemma OverlapDropsRows(e: Entry)
    requires e.injectedAt == None
    ensures var steps := [StartSweep(0, ["f"]), StartPrune(1, {e.session}, ["f"]), Remove(1, true), Commit(1, 9)];
            var w := Run(World(map["f" := e], {"f"}, map[]), steps);
            0 in w.janitors && w.janitors[0].todo == ["f"] && "f" !in w.table && "f" !in w.disk
  {
    var w0 := World(map["f" := e], {"f"}, map[]);
    var a, b, c, d := StartSweep(0, ["f"]), StartPrune(1, {e.session}, ["f"]), Remove(1, true), Commit(1, 9);
    var w1 := Next(w0, a);
    assert FilesOf(["f"], w1.table, {e.session});
    var w2 := Next(w1, b);
    var w3 := Next(w2, c);
    assert w3.janitors[1] == Janitor(PruneKind({e.session}, w1.table), [], ["f"], {});
    assert !Immune(w3.table, e.session, 9);
    RowOfDeleted(w1.table, {e.session}, StateOf(w3, w3.janitors[1]), 9, "f");
    var w4 := Next(w3, d);
    Extend(w0, [], a);
    assert [] + [a] == [a] && Run(w0, [a]) == w1;
    Extend(w0, [a], b);
    assert [a] + [b] == [a, b] && Run(w0, [a, b]) == w2;
    Extend(w0, [a, b], c);
    assert [a, b] + [c] == [a, b, c] && Run(w0, [a, b, c]) == w3;
    Extend(w0, [a, b, c], d);
    assert [a, b, c] + [d] == [a, b, c, d] && Run(w0, [a, b, c, d]) == w4;
  }

  lemma Extend(w: World, steps: seq<Step>, step: Step)
    requires CanStep(Run(w, steps), step)
    ensures Run(w, steps + [step]) == Next(Run(w, steps), step)
  {
    assert (steps + [step])[..|steps|] == steps;
  }
}
