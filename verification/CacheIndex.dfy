/**
 The cache index table, the files on disk, and the unlocked middle phase that sweep and prune share: files are
 removed one by one while other tasks may mark entries as injected or register new files.
 */
module CacheIndex {
  import opened Wrappers

  const CLIPBOARD_LOCK_SECS: int := 7200

  /** A row of cache_entries; times in whole seconds. */
  datatype Entry = Entry(session: string, size: nat, createdAt: int, injectedAt: Option<int>, lastAccessed: int)

  type Table = map<string, Entry>

  /** Inside the clipboard immunity window. */
  predicate Locked(e: Entry, now: int) {
    e.injectedAt.Some? && now - e.injectedAt.value <= CLIPBOARD_LOCK_SECS
  }

  // ----- the two operations that can interleave -----

  /** mark_clipboard_injected. */
  function MarkInjected(t: Table, session: string, now: int): Table {
    map p | p in t :: if t[p].session == session then t[p].(injectedAt := Some(now)) else t[p]
  }

  /** register_entry, an INSERT OR REPLACE. */
  function Register(t: Table, path: string, session: string, size: nat, now: int): Table {
    t[path := Entry(session, size, now, None, now)]
  }

  // ----- the unlocked phase -----

  datatype State = State(table: Table, disk: set<string>, todo: seq<string>, removed: seq<string>, failed: set<string>)

  datatype Action =
    | TryRemove(succeeds: bool)
    | Inject(session: string, now: int)
    | Receive(path: string, session: string, size: nat, now: int)

  /** A missing file counts as removed; a failing removal leaves file and row for the next round. */
  function Act(s: State, a: Action): State {
    match a
    case TryRemove(succeeds) =>
      if s.todo == [] then s
      else
        var p := s.todo[0];
        var s' := s.(todo := s.todo[1..]);
        if p !in s.disk then s'.(removed := s.removed + [p])
        else if succeeds then s'.(removed := s.removed + [p], disk := s.disk - {p})
        else s'.(failed := s.failed + {p})
    case Inject(session, now) => s.(table := MarkInjected(s.table, session, now))
    case Receive(path, session, size, now) =>
      s.(table := Register(s.table, path, session, size, now), disk := s.disk + {path})
  }

  function Exec(s: State, schedule: seq<Action>): State {
    if schedule == [] then s else Act(Exec(s, schedule[..|schedule| - 1]), schedule[|schedule| - 1])
  }

  function Begin(t: Table, disk: set<string>, todo: seq<string>): State {
    State(t, disk, todo, [], {})
  }

  predicate Receives(schedule: seq<Action>, path: string) {
    exists i :: 0 <= i < |schedule| && schedule[i].Receive? && schedule[i].path == path
  }

  lemma ReceivesPrefix(schedule: seq<Action>, path: string)
    requires schedule != [] && !Receives(schedule, path)
    ensures !Receives(schedule[..|schedule| - 1], path)
    ensures schedule[|schedule| - 1].Receive? ==> schedule[|schedule| - 1].path != path
  {
  }

  /** Rows never leave during the phase, and only the injection mark of an unreceived row changes. */
  lemma {:induction false} RowsStay(s: State, schedule: seq<Action>, path: string)
    requires path in s.table
    ensures path in Exec(s, schedule).table
    ensures !Receives(schedule, path) ==>
              Exec(s, schedule).table[path] == s.table[path].(injectedAt := Exec(s, schedule).table[path].injectedAt)
  {
    if schedule == [] {
    } else {
      RowsStay(s, schedule[..|schedule| - 1], path);
      if !Receives(schedule, path) {
        ReceivesPrefix(schedule, path);
      }
    }
  }

  /** The list is worked off front to back: what is done and what is left make up the whole. */
  ghost predicate WorkedOff(todo: seq<string>, s: State) {
    && |s.todo| <= |todo| && s.todo == todo[|todo| - |s.todo|..]
    && (forall p :: p in todo[..|todo| - |s.todo|] <==> p in s.removed || p in s.failed)
  }

  lemma WorkOne(todo: seq<string>, s: State, succeeds: bool)
    requires WorkedOff(todo, s)
    ensures WorkedOff(todo, Act(s, TryRemove(succeeds)))
  {
    if s.todo != [] {
      var k := |todo| - |s.todo|;
      assert todo[k] == s.todo[0];
      assert todo[..k + 1] == todo[..k] + [todo[k]];
      assert s.todo[1..] == todo[k + 1..];
    }
  }

  lemma {:induction false} ListWorkedOff(s0: State, schedule: seq<Action>)
    requires s0.removed == [] && s0.failed == {}
    ensures WorkedOff(s0.todo, Exec(s0, schedule))
  {
    if schedule == [] {
      assert s0.todo[..0] == [];
    } else {
      ListWorkedOff(s0, schedule[..|schedule| - 1]);
      var before, a := Exec(s0, schedule[..|schedule| - 1]), schedule[|schedule| - 1];
      if a.TryRemove? {
        WorkOne(s0.todo, before, a.succeeds);
      }
    }
  }

  /** A removed file is not on disk unless it was received again meanwhile; the disk only loses listed files. */
  lemma {:induction false} RemovedIsGone(s0: State, schedule: seq<Action>, path: string)
    requires s0.removed == [] && !Receives(schedule, path)
    ensures var s := Exec(s0, schedule);
            && (path in s.removed ==> path !in s.disk)
            && (path in s.disk ==> path in s0.disk)
            && (path in s0.disk && path !in s.removed ==> path in s.disk)
  {
    if schedule == [] {
    } else {
      ReceivesPrefix(schedule, path);
      RemovedIsGone(s0, schedule[..|schedule| - 1], path);
    }
  }

  /** The last injection of the row's session during the phase, if any. */
  function LastInjection(schedule: seq<Action>, session: string): Option<int> {
    if schedule == [] then None
    else
      var a := schedule[|schedule| - 1];
      if a.Inject? && a.session == session then Some(a.now) else LastInjection(schedule[..|schedule| - 1], session)
  }

  lemma {:induction false} InjectionRecorded(s: State, schedule: seq<Action>, path: string)
    requires path in s.table && !Receives(schedule, path)
    ensures path in Exec(s, schedule).table
    ensures var last := LastInjection(schedule, s.table[path].session);
            Exec(s, schedule).table[path].injectedAt == if last.Some? then last else s.table[path].injectedAt
  {
    if schedule == [] {
    } else {
      ReceivesPrefix(schedule, path);
      InjectionRecorded(s, schedule[..|schedule| - 1], path);
      RowsStay(s, schedule[..|schedule| - 1], path);
    }
  }

  // ----- what the phase leaves, read off its schedule -----

  predicate Distinct(s: seq<string>) {
    forall i, j :: 0 <= i < j < |s| ==> s[i] != s[j]
  }

  lemma {:induction false} ExecConcat(s: State, a: seq<Action>, b: seq<Action>)
    ensures Exec(s, a + b) == Exec(Exec(s, a), b)
  {
    if b == [] {
      assert a + b == a;
    } else {
      var n := |b| - 1;
      ExecConcat(s, a, b[..n]);
      assert (a + b)[..|a| + n] == a + b[..n];
    }
  }

  /** The position at which the path was last received. */
  function LastReceive(schedule: seq<Action>, path: string): (k: Option<nat>)
    ensures k.Some? ==> k.value < |schedule| && schedule[k.value].Receive? && schedule[k.value].path == path
    ensures k.Some? ==> !Receives(schedule[k.value + 1..], path)
    ensures k.None? <==> !Receives(schedule, path)
  {
    if schedule == [] then None
    else
      var n := |schedule| - 1;
      if schedule[n].Receive? && schedule[n].path == path then Some(n)
      else
        var k := LastReceive(schedule[..n], path);
        if k.Some? then
          LaterActions(schedule, k.value, path);
          k
        else
          k
  }

  lemma LaterActions(schedule: seq<Action>, k: nat, path: string)
    requires schedule != [] && k < |schedule| - 1
    requires !Receives(schedule[..|schedule| - 1][k + 1..], path)
    requires !(schedule[|schedule| - 1].Receive? && schedule[|schedule| - 1].path == path)
    ensures !Receives(schedule[k + 1..], path)
  {
    var earlier, later := schedule[..|schedule| - 1][k + 1..], schedule[k + 1..];
    forall i | 0 <= i < |later|
      ensures !(later[i].Receive? && later[i].path == path)
    {
      if i < |earlier| {
        assert later[i] == earlier[i];
      }
    }
  }

  function Marked(e: Entry, mark: Option<int>): Entry {
    if mark.Some? then e.(injectedAt := mark) else e
  }

  /** The row of a path after the phase, from the row before it and the schedule alone. */
  function RowAfter(t: Table, schedule: seq<Action>, path: string): Option<Entry> {
    match LastReceive(schedule, path)
    case Some(k) =>
      var a := schedule[k];
      Some(Marked(Entry(a.session, a.size, a.now, None, a.now), LastInjection(schedule[k + 1..], a.session)))
    case None =>
      if path in t then Some(Marked(t[path], LastInjection(schedule, t[path].session))) else None
  }

  /** The state in which the rest of the schedule starts once the path was last received. */
  lemma AfterLastReceive(s: State, schedule: seq<Action>, path: string, k: nat)
    requires LastReceive(schedule, path) == Some(k)
    ensures Exec(s, schedule) == Exec(Exec(s, schedule[..k + 1]), schedule[k + 1..])
    ensures Exec(s, schedule[..k + 1]) == Act(Exec(s, schedule[..k]), schedule[k])
  {
    assert schedule == schedule[..k + 1] + schedule[k + 1..];
    ExecConcat(s, schedule[..k + 1], schedule[k + 1..]);
    assert schedule[..k + 1][..k] == schedule[..k];
  }

  lemma {:induction false} NoRowAppears(s: State, schedule: seq<Action>, path: string)
    requires path !in s.table && !Receives(schedule, path)
    ensures path !in Exec(s, schedule).table
  {
    if schedule == [] {
    } else {
      ReceivesPrefix(schedule, path);
      NoRowAppears(s, schedule[..|schedule| - 1], path);
    }
  }

  lemma RowAtEnd(s: State, schedule: seq<Action>, path: string)
    ensures var row := RowAfter(s.table, schedule, path);
            && (path in Exec(s, schedule).table <==> row.Some?)
            && (row.Some? ==> Exec(s, schedule).table[path] == row.value)
  {
    var k := LastReceive(schedule, path);
    if k.Some? {
      AfterLastReceive(s, schedule, path, k.value);
      var s1 := Exec(s, schedule[..k.value + 1]);
      RowsStay(s1, schedule[k.value + 1..], path);
      InjectionRecorded(s1, schedule[k.value + 1..], path);
    } else if path in s.table {
      RowsStay(s, schedule, path);
      InjectionRecorded(s, schedule, path);
    } else {
      NoRowAppears(s, schedule, path);
    }
  }

  /**
   From a state in which the file is there and, if already worked off, no longer listed: it stays unless it is
   removed now.
   */
  lemma {:induction false} DiskAfter(s: State, schedule: seq<Action>, path: string)
    requires !Receives(schedule, path) && path in s.disk
    requires path in s.removed ==> path !in s.todo
    ensures var e := Exec(s, schedule);
            && (path in s.removed ==> path in e.removed && path in e.disk && path !in e.todo)
            && (path !in s.removed ==> (path in e.removed <==> path !in e.disk))
  {
    if schedule == [] {
    } else {
      ReceivesPrefix(schedule, path);
      DiskAfter(s, schedule[..|schedule| - 1], path);
    }
  }

  /** A file last received at `k` is on disk at the end exactly if it was worked off before or is not removed at all. */
  lemma ReceivedOnDisk(s0: State, schedule: seq<Action>, path: string, k: nat)
    requires s0.removed == [] && s0.failed == {} && Distinct(s0.todo)
    requires LastReceive(schedule, path) == Some(k)
    ensures var s := Exec(s0, schedule);
            var before := path in Exec(s0, schedule[..k]).removed;
            && (before ==> path in s.removed && path in s.disk)
            && (!before ==> (path in s.removed <==> path !in s.disk))
  {
    AfterLastReceive(s0, schedule, path, k);
    DoneIsUnlisted(s0, schedule[..k], path);
    DiskAfter(Exec(s0, schedule[..k + 1]), schedule[k + 1..], path);
  }

  /** A listed file is worked off once: it cannot both go and resist. */
  lemma {:induction false} RemovedOrFailed(s0: State, schedule: seq<Action>, path: string)
    requires s0.removed == [] && s0.failed == {} && Distinct(s0.todo)
    ensures !(path in Exec(s0, schedule).removed && path in Exec(s0, schedule).failed)
  {
    if schedule == [] {
    } else {
      var earlier := schedule[..|schedule| - 1];
      RemovedOrFailed(s0, earlier, path);
      DoneIsUnlisted(s0, earlier, path);
    }
  }

  lemma DoneIsUnlisted(s0: State, schedule: seq<Action>, path: string)
    requires s0.removed == [] && s0.failed == {} && Distinct(s0.todo)
    ensures var s := Exec(s0, schedule);
            path in s.removed || path in s.failed ==> path !in s.todo
  {
    ListWorkedOff(s0, schedule);
    var s := Exec(s0, schedule);
    var m := |s0.todo| - |s.todo|;
    assert s0.todo == s0.todo[..m] + s.todo;
    assert path in s.removed || path in s.failed ==> path in s0.todo[..m];
  }

  // ----- the phase undisturbed -----

  ghost function SetOf(s: seq<string>): set<string> {
    set x | x in s
  }

  ghost predicate OnlyRemovals(schedule: seq<Action>) {
    forall a :: a in schedule ==> a.TryRemove?
  }

  lemma {:induction false} RemovalsKeepTable(s: State, schedule: seq<Action>)
    requires OnlyRemovals(schedule)
    ensures Exec(s, schedule).table == s.table
  {
    if schedule == [] {
    } else {
      assert schedule[|schedule| - 1] in schedule;
      RemovalsKeepTable(s, schedule[..|schedule| - 1]);
    }
  }

  lemma OneMoreRemoval(s: State, schedule: seq<Action>, succeeds: bool)
    requires OnlyRemovals(schedule)
    ensures OnlyRemovals(schedule + [TryRemove(succeeds)])
    ensures Exec(s, schedule + [TryRemove(succeeds)]) == Act(Exec(s, schedule), TryRemove(succeeds))
  {
    assert (schedule + [TryRemove(succeeds)])[..|schedule|] == schedule;
  }

  /** Removes what can be removed; `stuck` are the paths whose removal fails. */
  method RemoveFiles(ghost t: Table, disk: set<string>, todo: seq<string>, stuck: set<string>)
    returns (removed: seq<string>, left: set<string>, ghost schedule: seq<Action>)
    ensures OnlyRemovals(schedule) && Exec(Begin(t, disk, todo), schedule).todo == []
    ensures removed == Exec(Begin(t, disk, todo), schedule).removed
    ensures left == Exec(Begin(t, disk, todo), schedule).disk
    ensures forall p :: p in removed <==> p in todo && !(p in disk && p in stuck)
    ensures left == disk - (SetOf(todo) - stuck) && |removed| <= |todo|
  {
    removed, left, schedule := [], disk, [];
    for n := 0 to |todo|
      invariant OnlyRemovals(schedule)
      invariant var s := Exec(Begin(t, disk, todo), schedule);
                s.todo == todo[n..] && s.removed == removed && s.disk == left
      invariant forall p :: p in removed <==> p in todo[..n] && !(p in disk && p in stuck)
      invariant left == disk - (SetOf(todo[..n]) - stuck) && |removed| <= n
    {
      var p := todo[n];
      assert todo[..n + 1] == todo[..n] + [p];
      assert todo[n..][1..] == todo[n + 1..];
      OneMoreRemoval(Begin(t, disk, todo), schedule, p !in stuck);
      schedule := schedule + [TryRemove(p !in stuck)];
      if p in left {
        if p in stuck {
          continue;
        }
        left := left - {p};
      }
      removed := removed + [p];
    }
    assert todo[..|todo|] == todo;
  }
}
