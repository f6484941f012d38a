/** The transfer history: listing, pruning to the newest entries, and what pruning leaves. */
module HistoryPrune {
  import opened Wrappers
  import opened Sets
  import opened CacheIndex

  datatype Status = PENDING | TRANSFERRING | COMPLETED | FAILED | CANCELLED

  /** A row of transfer_tasks; rows stand in rowid order. */
  datatype Task = Task(sid: string, account: Option<string>, status: Status, createdAt: int, rowid: nat)

  /** Session ids are the primary key and rowids increase. */
  ghost predicate WellKeyed(tasks: seq<Task>) {
    && (forall i, j :: 0 <= i < j < |tasks| ==> tasks[i].sid != tasks[j].sid)
    && (forall i, j :: 0 <= i < j < |tasks| ==> tasks[i].rowid < tasks[j].rowid)
  }

  predicate Terminal(s: Status) {
    s == COMPLETED || s == FAILED || s == CANCELLED
  }

  // ----- ORDER BY created_at DESC, rowid DESC -----

  predicate Newer(a: Task, b: Task) {
    a.createdAt > b.createdAt || (a.createdAt == b.createdAt && a.rowid > b.rowid)
  }

  function Insert(t: Task, sorted: seq<Task>): seq<Task> {
    if sorted == [] then [t]
    else if Newer(t, sorted[0]) then [t] + sorted
    else [sorted[0]] + Insert(t, sorted[1..])
  }

  function NewestFirst(tasks: seq<Task>): seq<Task> {
    if tasks == [] then [] else Insert(tasks[0], NewestFirst(tasks[1..]))
  }

  ghost predicate Ordered(s: seq<Task>) {
    forall i, j :: 0 <= i < j < |s| ==> Newer(s[i], s[j])
  }

  /** Distinct rowids make the order strict. */
  ghost predicate DistinctIds(s: seq<Task>) {
    forall i, j :: 0 <= i < j < |s| ==> s[i].rowid != s[j].rowid
  }

  lemma {:induction false} InsertSorted(t: Task, s: seq<Task>)
    requires Ordered(s) && forall x :: x in s ==> x.rowid != t.rowid
    ensures Ordered(Insert(t, s))
    ensures forall x :: x in Insert(t, s) <==> x in s || x == t
  {
    if s == [] {
    } else {
      assert s == [s[0]] + s[1..];
      if !Newer(t, s[0]) {
        InsertSorted(t, s[1..]);
        var r := Insert(t, s[1..]);
        forall i | 0 <= i < |r|
          ensures Newer(s[0], r[i])
        {
          assert r[i] in s[1..] || r[i] == t;
        }
      }
    }
  }

  lemma {:induction false} InsertKeepsRows(t: Task, s: seq<Task>)
    ensures multiset(Insert(t, s)) == multiset(s) + multiset{t}
  {
    if s == [] || Newer(t, s[0]) {
    } else {
      assert s == [s[0]] + s[1..];
      InsertKeepsRows(t, s[1..]);
    }
  }

  /** NewestFirst is the rows of its argument, newest first. */
  lemma {:induction false} NewestFirstSorts(tasks: seq<Task>)
    requires DistinctIds(tasks)
    ensures Ordered(NewestFirst(tasks)) && multiset(NewestFirst(tasks)) == multiset(tasks)
    ensures forall x :: x in NewestFirst(tasks) <==> x in tasks
  {
    if tasks == [] {
    } else {
      assert tasks == [tasks[0]] + tasks[1..];
      NewestFirstSorts(tasks[1..]);
      InsertSorted(tasks[0], NewestFirst(tasks[1..]));
      InsertKeepsRows(tasks[0], NewestFirst(tasks[1..]));
    }
  }

  // ----- queries -----

  function OfAccount(tasks: seq<Task>, account: string): seq<Task> {
    if tasks == [] then []
    else if tasks[0].account == Some(account) then [tasks[0]] + OfAccount(tasks[1..], account)
    else OfAccount(tasks[1..], account)
  }

  function Take(s: seq<Task>, n: nat): seq<Task> {
    if n <= |s| then s[..n] else s
  }

  /** list_history. */
  function ListHistory(tasks: seq<Task>, account: string, limit: nat): seq<Task> {
    Take(NewestFirst(OfAccount(tasks, account)), limit)
  }

  /** Some file of the session is inside the clipboard immunity window. */
  predicate Immune(cache: Table, sid: string, now: int) {
    exists p | p in cache :: cache[p].session == sid && Locked(cache[p], now)
  }

  function Sids(tasks: seq<Task>): (s: seq<string>)
    ensures |s| == |tasks| && forall i :: 0 <= i < |tasks| ==> s[i] == tasks[i].sid
  {
    seq(|tasks|, i requires 0 <= i < |tasks| => tasks[i].sid)
  }

  predicate Prunable(tasks: seq<Task>, cache: Table, account: string, limit: nat, now: int, t: Task) {
    && t.account == Some(account) && Terminal(t.status) && !Immune(cache, t.sid, now)
    && t.sid !in Sids(ListHistory(tasks, account, limit))
  }

  function Keep(tasks: seq<Task>, gone: set<string>): seq<Task> {
    if tasks == [] then []
    else if tasks[0].sid in gone then Keep(tasks[1..], gone)
    else [tasks[0]] + Keep(tasks[1..], gone)
  }

  /** select_prune_candidates; a limit of 0 means no limit. */
  function SelectPrune(tasks: seq<Task>, cache: Table, account: string, limit: nat, now: int): set<string> {
    if limit == 0 then {}
    else set t | t in tasks && Prunable(tasks, cache, account, limit, now, t) :: t.sid
  }

  /** The selection's query, evaluated row by row over the table. */
  method SelectPruneCandidates(tasks: seq<Task>, cache: Table, account: string, limit: nat, now: int)
    returns (sids: seq<string>)
    ensures forall s :: s in sids <==> s in SelectPrune(tasks, cache, account, limit, now)
  {
    sids := [];
    if limit == 0 {
      return;
    }
    var head := Sids(ListHistory(tasks, account, limit));
    for n := 0 to |tasks|
      invariant forall s :: s in sids <==>
                exists k :: 0 <= k < n && tasks[k].sid == s && Prunable(tasks, cache, account, limit, now, tasks[k])
    {
      var t := tasks[n];
      if t.account == Some(account) && Terminal(t.status) && t.sid !in head && !Immune(cache, t.sid, now) {
        sids := sids + [t.sid];
      }
    }
  }

  /** filter_recently_injected. */
  method FilterRecentlyInjected(cache: Table, sids: seq<string>, now: int) returns (safe: seq<string>)
    ensures forall s :: s in safe <==> s in sids && !Immune(cache, s, now)
  {
    safe := [];
    for n := 0 to |sids|
      invariant forall s :: s in safe <==> s in sids[..n] && !Immune(cache, s, now)
    {
      assert sids[..n + 1] == sids[..n] + [sids[n]];
      if !Immune(cache, sids[n], now) {
        safe := safe + [sids[n]];
      }
    }
    assert sids[..|sids|] == sids;
  }

  /** reset_stale_in_flight, run at startup. */
  function ResetStale(tasks: seq<Task>): seq<Task> {
    if tasks == [] then []
    else
      var t := tasks[0];
      [if t.status == PENDING || t.status == TRANSFERRING then t.(status := FAILED) else t] + ResetStale(tasks[1..])
  }

  // ----- filtering and sorting commute -----

  lemma {:induction false} KeepMembers(s: seq<Task>, gone: set<string>)
    ensures forall x :: x in Keep(s, gone) <==> x in s && x.sid !in gone
    ensures |Keep(s, gone)| <= |s|
  {
    if s == [] {
    } else {
      KeepMembers(s[1..], gone);
      assert s == [s[0]] + s[1..];
    }
  }

  lemma {:induction false} KeepInsert(t: Task, s: seq<Task>, gone: set<string>)
    requires Ordered(s) && forall x :: x in s ==> x.rowid != t.rowid
    ensures Keep(Insert(t, s), gone) == if t.sid in gone then Keep(s, gone) else Insert(t, Keep(s, gone))
  {
    if s == [] {
      assert [t][1..] == [];
    } else if Newer(t, s[0]) {
      assert ([t] + s)[1..] == s;
      KeepMembers(s, gone);
      if Keep(s, gone) != [] {
        var h := Keep(s, gone)[0];
        assert h in s;
        assert Newer(t, h);
      }
    } else {
      KeepInsert(t, s[1..], gone);
      var r := Insert(t, s[1..]);
      assert ([s[0]] + r)[1..] == r;
      if s[0].sid !in gone {
        assert ([s[0]] + Keep(s[1..], gone))[1..] == Keep(s[1..], gone);
      } else if t.sid !in gone {
        assert Keep(s, gone) == Keep(s[1..], gone);
      }
    }
  }

  lemma {:induction false} KeepSorts(s: seq<Task>, gone: set<string>)
    requires DistinctIds(s)
    ensures NewestFirst(Keep(s, gone)) == Keep(NewestFirst(s), gone)
  {
    if s == [] {
    } else {
      KeepSorts(s[1..], gone);
      NewestFirstSorts(s[1..]);
      KeepInsert(s[0], NewestFirst(s[1..]), gone);
      if s[0].sid !in gone {
        assert ([s[0]] + Keep(s[1..], gone))[1..] == Keep(s[1..], gone);
      }
    }
  }

  lemma {:induction false} KeepOfAccount(tasks: seq<Task>, account: string, gone: set<string>)
    ensures OfAccount(Keep(tasks, gone), account) == Keep(OfAccount(tasks, account), gone)
  {
    if tasks == [] {
    } else {
      KeepOfAccount(tasks[1..], account, gone);
      var t := tasks[0];
      var k := Keep(tasks[1..], gone);
      assert ([t] + k)[1..] == k;
      var o := OfAccount(tasks[1..], account);
      assert ([t] + o)[1..] == o;
    }
  }

  lemma {:induction false} AccountRows(tasks: seq<Task>, account: string)
    ensures forall x :: x in OfAccount(tasks, account) <==> x in tasks && x.account == Some(account)
  {
    if tasks == [] {
    } else {
      AccountRows(tasks[1..], account);
      assert tasks == [tasks[0]] + tasks[1..];
    }
  }

  lemma {:induction false} AccountIds(tasks: seq<Task>, account: string)
    requires DistinctIds(tasks)
    ensures DistinctIds(OfAccount(tasks, account))
  {
    if tasks == [] {
    } else {
      AccountIds(tasks[1..], account);
      AccountRows(tasks[1..], account);
      forall x | x in OfAccount(tasks[1..], account)
        ensures x.rowid != tasks[0].rowid
      {
        assert x in tasks[1..];
      }
    }
  }

  lemma OfAccountMembers(tasks: seq<Task>, account: string)
    ensures forall x :: x in OfAccount(tasks, account) <==> x in tasks && x.account == Some(account)
    ensures WellKeyed(tasks) ==> DistinctIds(OfAccount(tasks, account))
  {
    AccountRows(tasks, account);
    if WellKeyed(tasks) {
      AccountIds(tasks, account);
    }
  }

  lemma {:induction false} KeepAll(s: seq<Task>, gone: set<string>)
    requires forall x :: x in s ==> x.sid !in gone
    ensures Keep(s, gone) == s
  {
    if s == [] {
    } else {
      KeepAll(s[1..], gone);
    }
  }

  lemma {:induction false} KeepConcat(a: seq<Task>, b: seq<Task>, gone: set<string>)
    ensures Keep(a + b, gone) == Keep(a, gone) + Keep(b, gone)
  {
    if a == [] {
      assert a + b == b;
    } else {
      KeepConcat(a[1..], b, gone);
      assert (a + b)[1..] == a[1..] + b;
    }
  }

  /** Deleting sessions outside a list's head leaves that head as it was. */
  lemma KeepHead(s: seq<Task>, n: nat, gone: set<string>)
    requires forall x :: x in Take(s, n) ==> x.sid !in gone
    ensures Take(Keep(s, gone), n) == Take(s, n)
  {
    if n <= |s| {
      assert s == s[..n] + s[n..];
      KeepConcat(s[..n], s[n..], gone);
      KeepAll(s[..n], gone);
    } else {
      KeepAll(s, gone);
    }
  }

  /** A list after deletion is the old list without the deleted sessions, re-cut. */
  lemma ListAfterDelete(tasks: seq<Task>, account: string, limit: nat, gone: set<string>)
    requires WellKeyed(tasks)
    ensures ListHistory(Keep(tasks, gone), account, limit) ==
            Take(Keep(NewestFirst(OfAccount(tasks, account)), gone), limit)
  {
    OfAccountMembers(tasks, account);
    KeepOfAccount(tasks, account, gone);
    KeepSorts(OfAccount(tasks, account), gone);
  }

  // ----- theorems about the selection -----

  /** Candidates are terminal, non-immune sessions of this account and none is among the newest `limit` it lists. */
  lemma CandidatesAreSafe(tasks: seq<Task>, cache: Table, account: string, limit: nat, now: int, t: Task)
    requires WellKeyed(tasks) && t in tasks
    ensures t.sid in SelectPrune(tasks, cache, account, limit, now) <==>
            && limit > 0 && t.account == Some(account) && Terminal(t.status) && !Immune(cache, t.sid, now)
            && t !in ListHistory(tasks, account, limit)
  {
    OfAccountMembers(tasks, account);
    NewestFirstSorts(OfAccount(tasks, account));
    var head := ListHistory(tasks, account, limit);
    assert forall x :: x in head ==> x in tasks;
    if t.sid in Sids(head) {
      var i :| 0 <= i < |head| && Sids(head)[i] == t.sid;
      assert head[i] in tasks && head[i].sid == t.sid;
      SameSidSameTask(tasks, head[i], t);
    }
    assert forall i :: 0 <= i < |head| ==> Sids(head)[i] in Sids(head);
    if t.sid in SelectPrune(tasks, cache, account, limit, now) {
      var u :| u in tasks && Prunable(tasks, cache, account, limit, now, u) && u.sid == t.sid;
      SameSidSameTask(tasks, u, t);
    }
  }

  lemma SameSidSameTask(tasks: seq<Task>, a: Task, b: Task)
    requires WellKeyed(tasks) && a in tasks && b in tasks && a.sid == b.sid
    ensures a == b
  {
    var i :| 0 <= i < |tasks| && tasks[i] == a;
    var j :| 0 <= j < |tasks| && tasks[j] == b;
    assert i == j;
  }

  /**
   Deleting any candidates leaves this account's first `limit` entries and every other account's lists as they were.
   */
  lemma PruneKeepsLists(tasks: seq<Task>, cache: Table, account: string, limit: nat, now: int, gone: set<string>,
                        other: string, m: nat)
    requires WellKeyed(tasks) && gone <= SelectPrune(tasks, cache, account, limit, now)
    ensures ListHistory(Keep(tasks, gone), account, limit) == ListHistory(tasks, account, limit)
    ensures other != account ==> ListHistory(Keep(tasks, gone), other, m) == ListHistory(tasks, other, m)
  {
    forall x | x in tasks && x.sid in gone
      ensures x.account == Some(account) && x !in ListHistory(tasks, account, limit)
    {
      CandidatesAreSafe(tasks, cache, account, limit, now, x);
    }
    DeleteKeepsLists(tasks, account, limit, gone, other, m);
  }

  lemma InOwnList(tasks: seq<Task>, account: string, x: Task)
    requires WellKeyed(tasks)
    ensures x in NewestFirst(OfAccount(tasks, account)) <==> x in tasks && x.account == Some(account)
  {
    OfAccountMembers(tasks, account);
    NewestFirstSorts(OfAccount(tasks, account));
  }

  /** Pruning everything selected makes a second prune at the same moment select nothing. */
  lemma SecondPruneIsEmpty(tasks: seq<Task>, cache: Table, cache': Table, account: string, limit: nat, now: int)
    requires WellKeyed(tasks)
    requires forall sid :: Immune(cache, sid, now) ==> Immune(cache', sid, now)
    ensures var tasks' := Keep(tasks, SelectPrune(tasks, cache, account, limit, now));
            SelectPrune(tasks', cache', account, limit, now) == {}
  {
    var gone := SelectPrune(tasks, cache, account, limit, now);
    var tasks' := Keep(tasks, gone);
    KeepMembers(tasks, gone);
    PruneKeepsLists(tasks, cache, account, limit, now, gone, account, 0);
    forall t | t in tasks'
      ensures !Prunable(tasks', cache', account, limit, now, t) || limit == 0
    {
      CandidatesAreSafe(tasks, cache, account, limit, now, t);
      assert limit > 0 && Prunable(tasks', cache', account, limit, now, t) ==>
             Prunable(tasks, cache, account, limit, now, t);
    }
  }

  /** Everything the account has left is among its newest `limit`, still in progress, or immune. */
  lemma PruneLeaves(tasks: seq<Task>, cache: Table, account: string, limit: nat, now: int, t: Task)
    requires WellKeyed(tasks) && limit > 0
    requires t in Keep(tasks, SelectPrune(tasks, cache, account, limit, now)) && t.account == Some(account)
    ensures t in ListHistory(tasks, account, limit) || !Terminal(t.status) || Immune(cache, t.sid, now)
  {
    KeepMembers(tasks, SelectPrune(tasks, cache, account, limit, now));
    CandidatesAreSafe(tasks, cache, account, limit, now, t);
  }

  function Protected(tasks: seq<Task>, cache: Table, account: string, now: int): set<Task> {
    set t | t in tasks && t.account == Some(account) && (!Terminal(t.status) || Immune(cache, t.sid, now))
  }

  /** Hence at most `limit` rows plus the protected ones remain. */
  lemma PruneBound(tasks: seq<Task>, cache: Table, account: string, limit: nat, now: int)
    requires WellKeyed(tasks) && limit > 0
    ensures var tasks' := Keep(tasks, SelectPrune(tasks, cache, account, limit, now));
            |set t | t in tasks' && t.account == Some(account)| <= limit + |Protected(tasks, cache, account, now)|
  {
    var tasks' := Keep(tasks, SelectPrune(tasks, cache, account, limit, now));
    var left := set t | t in tasks' && t.account == Some(account);
    var head := ListHistory(tasks, account, limit);
    var headSet := set t | t in head;
    KeepMembers(tasks, SelectPrune(tasks, cache, account, limit, now));
    forall t | t in left
      ensures t in headSet + Protected(tasks, cache, account, now)
    {
      PruneLeaves(tasks, cache, account, limit, now, t);
    }
    SubsetSize(left, headSet + Protected(tasks, cache, account, now));
    SeqSetSize(head);
  }

  lemma {:induction false} SeqSetSize(s: seq<Task>)
    ensures |set t | t in s| <= |s|
  {
    if s == [] {
      assert (set t | t in s) == {};
    } else {
      SeqSetSize(s[1..]);
      assert (set t | t in s) == (set t | t in s[1..]) + {s[0]};
    }
  }

  /** The startup reset turns what was waiting or under way into failures and touches nothing else. */
  lemma {:induction false} ResetIsExact(tasks: seq<Task>)
    ensures |ResetStale(tasks)| == |tasks|
    ensures forall i :: 0 <= i < |tasks| ==>
              ResetStale(tasks)[i] ==
              if tasks[i].status in {COMPLETED, FAILED, CANCELLED} then tasks[i] else tasks[i].(status := FAILED)
  {
    if tasks == [] {
    } else {
      ResetIsExact(tasks[1..]);
    }
  }

  /** After the startup reset nothing in progress escapes a prune: only immune sessions can exceed the limit. */
  lemma ResetThenPruneBound(tasks: seq<Task>, cache: Table, account: string, limit: nat, now: int, t: Task)
    requires WellKeyed(tasks) && limit > 0
    requires var reset := ResetStale(tasks);
             t in Keep(reset, SelectPrune(reset, cache, account, limit, now)) && t.account == Some(account)
    ensures t in ListHistory(ResetStale(tasks), account, limit) || Immune(cache, t.sid, now)
  {
    ResetIsExact(tasks);
    var reset := ResetStale(tasks);
    assert WellKeyed(reset);
    PruneLeaves(reset, cache, account, limit, now, t);
    KeepMembers(reset, SelectPrune(reset, cache, account, limit, now));
  }

  // ----- the three phases together -----

  /** The files of the chosen sessions, in any order. */
  ghost predicate FilesOf(todo: seq<string>, cache: Table, sids: set<string>) {
    forall p :: p in todo <==> p in cache && cache[p].session in sids
  }

  /** The sessions of which no file failed to go. */
  function Deletable(cache: Table, sids: set<string>, failed: set<string>): set<string> {
    set sid | sid in sids && !exists p | p in failed :: p in cache && cache[p].session == sid
  }

  /** The listed files of the chosen sessions. */
  method ListFiles(cache: Table, sids: seq<string>) returns (todo: seq<string>)
    ensures FilesOf(todo, cache, SetOf(sids)) && Distinct(todo)
  {
    todo := [];
    var pending := cache.Keys;
    while pending != {}
      invariant pending <= cache.Keys && Distinct(todo)
      invariant forall p :: p in todo <==> p in cache && p !in pending && cache[p].session in sids
      decreases pending
    {
      var p :| p in pending;
      pending := pending - {p};
      if cache[p].session in sids {
        todo := todo + [p];
      }
    }
  }

  /** The chosen sessions all of whose listed files are among the removed ones. */
  method PickDeletable(cache: Table, sids: seq<string>, todo: seq<string>, removed: seq<string>,
                       ghost failed: set<string>)
    returns (deletable: seq<string>)
    requires FilesOf(todo, cache, SetOf(sids))
    requires forall p :: p in todo ==> (p in failed <==> p !in removed)
    ensures forall s :: s in deletable <==> s in Deletable(cache, SetOf(sids), failed)
  {
    deletable := [];
    for n := 0 to |sids|
      invariant forall s :: s in deletable <==> s in sids[..n] && s in Deletable(cache, SetOf(sids), failed)
    {
      assert sids[..n + 1] == sids[..n] + [sids[n]];
      assert sids[n] in SetOf(sids);
      if !exists p | p in todo :: p !in removed && p in cache && cache[p].session == sids[n] {
        deletable := deletable + [sids[n]];
      }
    }
    assert sids[..|sids|] == sids;
  }

  /** The sessions phase 3 deletes: no failed file, and not injected meanwhile. */
  function Deleted(cache: Table, sids: set<string>, s: State, now: int): set<string> {
    set sid | sid in Deletable(cache, sids, s.failed) && !Immune(s.table, sid, now)
  }

  /** delete_sessions on the cache table. */
  function WithoutSessions(t: Table, sids: set<string>): Table {
    map p | p in t && t[p].session !in sids :: t[p]
  }

  /** Some row the session has after the phase, read off the schedule, carries a mark inside the window. */
  ghost predicate ImmuneAfter(cache: Table, schedule: seq<Action>, sid: string, now: int) {
    exists p: string :: RowIsImmune(cache, schedule, sid, now, p)
  }

  predicate RowIsImmune(cache: Table, schedule: seq<Action>, sid: string, now: int, p: string) {
    var row := RowAfter(cache, schedule, p);
    row.Some? && row.value.session == sid && Locked(row.value, now)
  }

  lemma ImmuneAtEnd(s0: State, schedule: seq<Action>, sid: string, now: int)
    ensures Immune(Exec(s0, schedule).table, sid, now) <==> ImmuneAfter(s0.table, schedule, sid, now)
  {
    var t := Exec(s0, schedule).table;
    if Immune(t, sid, now) {
      var p :| p in t && t[p].session == sid && Locked(t[p], now);
      RowAtEnd(s0, schedule, p);
      assert RowIsImmune(s0.table, schedule, sid, now, p);
    }
    if ImmuneAfter(s0.table, schedule, sid, now) {
      var p :| RowIsImmune(s0.table, schedule, sid, now, p);
      RowAtEnd(s0, schedule, p);
      assert p in t && t[p].session == sid && Locked(t[p], now);
    }
  }

  /** The candidates none of whose listed files resisted removal. */
  ghost predicate AllRemoved(cache: Table, failed: set<string>, sid: string) {
    forall p :: p in failed && p in cache ==> cache[p].session != sid
  }

  /**
   Exactly when a prune orphans a file: it was last received for a candidate session all of whose listed files were
   removed and no file of which carries a mark inside the window, and it stayed on disk, because it was not listed, was
   worked off before it came, or could not be removed.
   */
  lemma PruneOrphansExactly(cache: Table, disk: set<string>, sids: set<string>, todo: seq<string>,
                            schedule: seq<Action>, now: int, path: string)
    requires FilesOf(todo, cache, sids) && Distinct(todo)
    requires Exec(Begin(cache, disk, todo), schedule).todo == []
    requires path in cache || Receives(schedule, path)
    ensures var s0 := Begin(cache, disk, todo);
            var s := Exec(s0, schedule);
            var k := LastReceive(schedule, path);
            (path in s.disk && path !in WithoutSessions(s.table, Deleted(cache, sids, s, now))) <==>
            && k.Some?
            && (path !in todo || path in Exec(s0, schedule[..k.value]).removed || path in s.failed)
            && schedule[k.value].session in sids
            && AllRemoved(cache, s.failed, schedule[k.value].session)
            && !ImmuneAfter(cache, schedule, schedule[k.value].session, now)
  {
    var s0 := Begin(cache, disk, todo);
    var s := Exec(s0, schedule);
    var k := LastReceive(schedule, path);
    if k.None? {
      UnreceivedKeepsRow(cache, disk, sids, todo, schedule, now, path);
    } else {
      var sid := schedule[k.value].session;
      RowAtEnd(s0, schedule, path);
      StaysOnDisk(cache, disk, todo, schedule, path, k.value);
      ImmuneAtEnd(s0, schedule, sid, now);
      RowOfDeleted(cache, sids, s, now, path);
      assert s.table[path].session == sid;
    }
  }

  lemma StaysOnDisk(cache: Table, disk: set<string>, todo: seq<string>, schedule: seq<Action>, path: string, k: nat)
    requires Distinct(todo) && LastReceive(schedule, path) == Some(k)
    requires Exec(Begin(cache, disk, todo), schedule).todo == []
    ensures var s := Exec(Begin(cache, disk, todo), schedule);
            path in s.disk <==>
            path !in todo || path in Exec(Begin(cache, disk, todo), schedule[..k]).removed || path in s.failed
  {
    var s0 := Begin(cache, disk, todo);
    var s := Exec(s0, schedule);
    ReceivedOnDisk(s0, schedule, path, k);
    ListWorkedOff(s0, schedule);
    assert todo[..|todo| - |s.todo|] == todo;
    ListWorkedOff(s0, schedule[..k]);
    RemovedOrFailed(s0, schedule, path);
  }

  lemma UnreceivedKeepsRow(cache: Table, disk: set<string>, sids: set<string>, todo: seq<string>, schedule: seq<Action>,
                           now: int, path: string)
    requires FilesOf(todo, cache, sids) && path in cache && !Receives(schedule, path)
    requires Exec(Begin(cache, disk, todo), schedule).todo == []
    ensures var s := Exec(Begin(cache, disk, todo), schedule);
            path in s.disk ==> path in WithoutSessions(s.table, Deleted(cache, sids, s, now))
  {
    var s0 := Begin(cache, disk, todo);
    var s := Exec(s0, schedule);
    RowsStay(s0, schedule, path);
    RemovedIsGone(s0, schedule, path);
    ListWorkedOff(s0, schedule);
    assert todo[..|todo| - |s.todo|] == todo;
    RowOfDeleted(cache, sids, s, now, path);
  }

  lemma RowOfDeleted(cache: Table, sids: set<string>, s: State, now: int, path: string)
    requires path in s.table
    ensures path !in WithoutSessions(s.table, Deleted(cache, sids, s, now)) <==>
            var sid := s.table[path].session;
            sid in sids && AllRemoved(cache, s.failed, sid) && !Immune(s.table, sid, now)
  {
  }

  /** A session injected during the unlocked phase keeps its history row and its file rows. */
  lemma PruneKeepsInjected(cache: Table, disk: set<string>, sids: set<string>, todo: seq<string>, schedule: seq<Action>,
                           tasks: seq<Task>, now: int, path: string, t: Task)
    requires path in cache && !Receives(schedule, path) && t in tasks && t.sid == cache[path].session
    requires var last := LastInjection(schedule, cache[path].session);
             last.Some? && now - last.value <= CLIPBOARD_LOCK_SECS
    ensures var s := Exec(Begin(cache, disk, todo), schedule);
            var gone := Deleted(cache, sids, s, now);
            t in Keep(tasks, gone) && path in WithoutSessions(s.table, gone)
  {
    var s0 := Begin(cache, disk, todo);
    var s := Exec(s0, schedule);
    InjectionRecorded(s0, schedule, path);
    RowsStay(s0, schedule, path);
    assert Locked(s.table[path], now) && s.table[path].session == t.sid;
    assert Immune(s.table, t.sid, now);
    KeepMembers(tasks, Deleted(cache, sids, s, now));
  }

  /** A session with a file that could not be removed stays whole for the next round. */
  lemma PruneKeepsFailed(cache: Table, disk: set<string>, sids: set<string>, todo: seq<string>, schedule: seq<Action>,
                         tasks: seq<Task>, now: int, path: string, t: Task)
    requires path in cache && !Receives(schedule, path) && t in tasks && t.sid == cache[path].session
    requires path in Exec(Begin(cache, disk, todo), schedule).failed
    ensures var s := Exec(Begin(cache, disk, todo), schedule);
            var gone := Deleted(cache, sids, s, now);
            t in Keep(tasks, gone) && path in WithoutSessions(s.table, gone)
  {
    var s0 := Begin(cache, disk, todo);
    RowsStay(s0, schedule, path);
    KeepMembers(tasks, Deleted(cache, sids, Exec(s0, schedule), now));
  }

  /** The candidates that go when nothing else runs meanwhile: none of their files resists, none is immune by then. */
  function Undisturbed(tasks: seq<Task>, cache: Table, account: string, limit: nat, now: int, disk: set<string>,
                       stuck: set<string>, later: int): set<string> {
    set sid | sid in SelectPrune(tasks, cache, account, limit, now) && !Immune(cache, sid, later) &&
              !exists p | p in cache :: cache[p].session == sid && p in disk && p in stuck
  }

  lemma FailedWasListed(s0: State, schedule: seq<Action>)
    requires s0.removed == [] && s0.failed == {}
    ensures forall p :: p in Exec(s0, schedule).failed ==> p in s0.todo
  {
    ListWorkedOff(s0, schedule);
  }

  /** prune_history when nothing else runs between its phases; `stuck` are the paths whose removal fails. */
  method PruneHistory(tasks: seq<Task>, cache: Table, account: string, limit: nat, now: int, disk: set<string>,
                      stuck: set<string>, later: int)
    returns (tasks': seq<Task>, cache': Table, disk': set<string>, ghost todo: seq<string>, ghost schedule: seq<Action>)
    ensures var sids := SelectPrune(tasks, cache, account, limit, now);
            var s := Exec(Begin(cache, disk, todo), schedule);
            && FilesOf(todo, cache, sids) && Distinct(todo) && OnlyRemovals(schedule) && s.todo == []
            && tasks' == Keep(tasks, Deleted(cache, sids, s, later))
            && cache' == WithoutSessions(cache, Deleted(cache, sids, s, later))
            && disk' == disk - (SetOf(todo) - stuck)
    ensures var gone := Undisturbed(tasks, cache, account, limit, now, disk, stuck, later);
            tasks' == Keep(tasks, gone) && cache' == WithoutSessions(cache, gone)
    ensures var sids := SelectPrune(tasks, cache, account, limit, now);
            forall p :: p in disk' <==> p in disk && !(p in cache && cache[p].session in sids && p !in stuck)
  {
    var sids := SelectPruneCandidates(tasks, cache, account, limit, now);
    assert SetOf(sids) == SelectPrune(tasks, cache, account, limit, now);
    var files := ListFiles(cache, sids);
    todo := files;
    var removed;
    removed, disk', schedule := RemoveFiles(cache, disk, files, stuck);
    ghost var s0 := Begin(cache, disk, todo);
    ghost var s := Exec(s0, schedule);
    RemovalsKeepTable(s0, schedule);
    ListSettled(s0, schedule);
    var deletable := PickDeletable(cache, sids, files, removed, s.failed);
    var safe := FilterRecentlyInjected(cache, deletable, later);
    var gone := set x | x in safe;
    assert gone == Deleted(cache, SetOf(sids), s, later);
    assert forall p :: p in s.failed <==> p in todo && p in disk && p in stuck by {
      FailedWasListed(s0, schedule);
    }
    assert gone == Undisturbed(tasks, cache, account, limit, now, disk, stuck, later);
    tasks', cache' := Keep(tasks, gone), WithoutSessions(cache, gone);
  }

  /** Once the list is worked off each file on it has either gone or resisted. */
  lemma ListSettled(s0: State, schedule: seq<Action>)
    requires s0.removed == [] && s0.failed == {} && Distinct(s0.todo) && Exec(s0, schedule).todo == []
    ensures var s := Exec(s0, schedule); forall p :: p in s0.todo ==> (p in s.failed <==> p !in s.removed)
  {
    ListWorkedOff(s0, schedule);
    var s := Exec(s0, schedule);
    assert s0.todo[..|s0.todo| - |s.todo|] == s0.todo;
    forall p | p in s0.todo
      ensures p in s.failed <==> p !in s.removed
    {
      RemovedOrFailed(s0, schedule, p);
    }
  }

  // ----- the history table may grow while files are removed -----

  /** The sessions of the account that the list has before `x`. */
  ghost function NewerSids(tasks: seq<Task>, account: string, x: Task): set<string> {
    set y | y in tasks && y.account == Some(account) && Newer(y, x) :: y.sid
  }

  ghost function SidSet(s: seq<Task>): set<string> {
    set y | y in s :: y.sid
  }

  lemma {:induction false} SidSetSize(s: seq<Task>)
    requires forall i, j :: 0 <= i < j < |s| ==> s[i].sid != s[j].sid
    ensures |SidSet(s)| == |s|
  {
    if s == [] {
      assert SidSet(s) == {};
    } else {
      var n := |s| - 1;
      SidSetSize(s[..n]);
      assert s == s[..n] + [s[n]];
      assert SidSet(s) == SidSet(s[..n]) + {s[n].sid};
      assert s[n].sid !in SidSet(s[..n]);
    }
  }

  /** A row is among the first `limit` exactly if fewer than `limit` sessions come before it. */
  lemma InHeadIff(tasks: seq<Task>, account: string, limit: nat, x: Task)
    requires WellKeyed(tasks) && x in tasks && x.account == Some(account)
    ensures x in ListHistory(tasks, account, limit) <==> |NewerSids(tasks, account, x)| < limit
  {
    var own := NewestFirst(OfAccount(tasks, account));
    OfAccountMembers(tasks, account);
    NewestFirstSorts(OfAccount(tasks, account));
    InOwnList(tasks, account, x);
    var i :| 0 <= i < |own| && own[i] == x;
    forall j, k | 0 <= j < k < |own|
      ensures own[j].sid != own[k].sid
    {
      assert Newer(own[j], own[k]) && own[j] in tasks && own[k] in tasks;
      if own[j].sid == own[k].sid {
        SameSidSameTask(tasks, own[j], own[k]);
      }
    }
    SidSetSize(own[..i]);
    BeforeInOrder(tasks, account, own, i);
    assert x in Take(own, limit) ==> i < limit;
  }

  lemma BeforeInOrder(tasks: seq<Task>, account: string, own: seq<Task>, i: nat)
    requires Ordered(own) && i < |own|
    requires forall y :: y in own <==> y in tasks && y.account == Some(account)
    ensures NewerSids(tasks, account, own[i]) == SidSet(own[..i])
    ensures forall k :: 0 <= k < |own| && own[k] == own[i] ==> k == i
  {
    forall y | y in own && Newer(y, own[i])
      ensures y in own[..i]
    {
      var k :| 0 <= k < |own| && own[k] == y;
      assert k < i;
    }
    assert forall k :: 0 <= k < i ==> Newer(own[k], own[i]);
  }

  /**
   Every row has a successor of its account that stands no lower in the list, at the same place if it is in `kept`.
   */
  ghost predicate Grows(tasks: seq<Task>, tasks': seq<Task>, kept: set<string>) {
    forall y :: y in tasks ==> exists y' :: y' in tasks' && Succeeds(y, y', kept)
  }

  predicate Succeeds(y: Task, y': Task, kept: set<string>) {
    && y'.sid == y.sid && y'.account == y.account && !Newer(y, y')
    && (y.sid in kept ==> y'.createdAt == y.createdAt && y'.rowid == y.rowid)
  }

  lemma CandidateStaysBehind(tasks: seq<Task>, tasks': seq<Task>, account: string, limit: nat, kept: set<string>,
                             t: Task, t': Task)
    requires WellKeyed(tasks) && WellKeyed(tasks') && Grows(tasks, tasks', kept)
    requires t in tasks && t.account == Some(account) && t !in ListHistory(tasks, account, limit)
    requires t' in tasks' && Succeeds(t, t', kept) && t.sid in kept
    ensures t' !in ListHistory(tasks', account, limit)
  {
    InHeadIff(tasks, account, limit, t);
    InHeadIff(tasks', account, limit, t');
    forall sid | sid in NewerSids(tasks, account, t)
      ensures sid in NewerSids(tasks', account, t')
    {
      var y :| y in tasks && y.account == Some(account) && Newer(y, t) && y.sid == sid;
      var y' :| y' in tasks' && Succeeds(y, y', kept);
      assert Newer(y', t');
    }
    SubsetSize(NewerSids(tasks, account, t), NewerSids(tasks', account, t'));
  }

  /** The two changes other tasks make: update_task_status, and record_task with the row id of a new row. */
  datatype TableChange = StatusSet(sid: string, status: Status) | Recorded(task: Task)

  function SetStatus(tasks: seq<Task>, sid: string, status: Status): (r: seq<Task>)
    ensures |r| == |tasks|
    ensures forall i :: 0 <= i < |tasks| ==>
            r[i] == if tasks[i].sid == sid then tasks[i].(status := status) else tasks[i]
  {
    seq(|tasks|, i requires 0 <= i < |tasks| => if tasks[i].sid == sid then tasks[i].(status := status) else tasks[i])
  }

  function Changed(tasks: seq<Task>, c: TableChange): seq<Task> {
    match c
    case StatusSet(sid, status) => SetStatus(tasks, sid, status)
    case Recorded(t) => Keep(tasks, {t.sid}) + [t]
  }

  /** A recorded row is the newest of the table, and stays with the account of the row it replaces. */
  ghost predicate Plausible(tasks: seq<Task>, c: TableChange) {
    c.Recorded? ==> forall y :: y in tasks ==>
      y.rowid < c.task.rowid && y.createdAt <= c.task.createdAt && (y.sid == c.task.sid ==> y.account == c.task.account)
  }

  lemma {:induction false} KeepIsWellKeyed(tasks: seq<Task>, gone: set<string>)
    requires WellKeyed(tasks)
    ensures WellKeyed(Keep(tasks, gone))
  {
    if tasks == [] {
    } else {
      KeepIsWellKeyed(tasks[1..], gone);
      KeepMembers(tasks[1..], gone);
      PrependKeyed(tasks, Keep(tasks[1..], gone));
    }
  }

  lemma PrependKeyed(tasks: seq<Task>, rest: seq<Task>)
    requires tasks != [] && WellKeyed(tasks) && WellKeyed(rest) && forall y :: y in rest ==> y in tasks[1..]
    ensures WellKeyed([tasks[0]] + rest)
  {
    forall y | y in rest
      ensures y.sid != tasks[0].sid && y.rowid > tasks[0].rowid
    {
      var i :| 0 <= i < |tasks[1..]| && tasks[1..][i] == y;
      assert tasks[i + 1] == y;
    }
  }

  lemma AppendKeyed(s: seq<Task>, t: Task)
    requires WellKeyed(s) && forall y :: y in s ==> y.sid != t.sid && y.rowid < t.rowid
    ensures WellKeyed(s + [t])
  {
  }

  lemma ChangeGrows(tasks: seq<Task>, c: TableChange, kept: set<string>)
    requires WellKeyed(tasks) && Plausible(tasks, c)
    requires c.Recorded? ==> c.task.sid !in kept
    ensures WellKeyed(Changed(tasks, c)) && Grows(tasks, Changed(tasks, c), kept)
  {
    var tasks' := Changed(tasks, c);
    match c
    case StatusSet(sid, status) =>
      forall y | y in tasks
        ensures exists y' :: y' in tasks' && Succeeds(y, y', kept)
      {
        var i :| 0 <= i < |tasks| && tasks[i] == y;
        assert tasks'[i] in tasks' && Succeeds(y, tasks'[i], kept);
      }
    case Recorded(t) =>
      KeepMembers(tasks, {t.sid});
      KeepIsWellKeyed(tasks, {t.sid});
      AppendKeyed(Keep(tasks, {t.sid}), t);
      forall y | y in tasks
        ensures exists y' :: y' in tasks' && Succeeds(y, y', kept)
      {
        var y' := if y.sid == t.sid then t else y;
        assert y' in tasks' && Succeeds(y, y', kept);
      }
  }

  function AfterChanges(tasks: seq<Task>, changes: seq<TableChange>): seq<Task> {
    if changes == [] then tasks
    else Changed(AfterChanges(tasks, changes[..|changes| - 1]), changes[|changes| - 1])
  }

  /** Each change is plausible when it comes and none records a session of `kept` again. */
  ghost predicate Orderly(tasks: seq<Task>, changes: seq<TableChange>, kept: set<string>) {
    changes == [] ||
    (var n := |changes| - 1;
     && Orderly(tasks, changes[..n], kept)
     && Plausible(AfterChanges(tasks, changes[..n]), changes[n])
     && (changes[n].Recorded? ==> changes[n].task.sid !in kept))
  }

  lemma GrowsTwice(a: seq<Task>, b: seq<Task>, c: seq<Task>, kept: set<string>)
    requires Grows(a, b, kept) && Grows(b, c, kept)
    ensures Grows(a, c, kept)
  {
    forall y | y in a
      ensures exists z :: z in c && Succeeds(y, z, kept)
    {
      var y' :| y' in b && Succeeds(y, y', kept);
      var z :| z in c && Succeeds(y', z, kept);
      assert Succeeds(y, z, kept);
    }
  }

  lemma {:induction false} ChangesGrow(tasks: seq<Task>, changes: seq<TableChange>, kept: set<string>)
    requires WellKeyed(tasks) && Orderly(tasks, changes, kept)
    ensures WellKeyed(AfterChanges(tasks, changes)) && Grows(tasks, AfterChanges(tasks, changes), kept)
  {
    if changes == [] {
      assert forall y :: y in tasks ==> Succeeds(y, y, kept);
    } else {
      var n := |changes| - 1;
      var before := AfterChanges(tasks, changes[..n]);
      ChangesGrow(tasks, changes[..n], kept);
      ChangeGrows(before, changes[n], kept);
      GrowsTwice(tasks, before, Changed(before, changes[n]), kept);
    }
  }

  /** Deleting rows outside an account's head keeps that head; rows of other accounts keep all lists of theirs. */
  lemma DeleteKeepsLists(tasks: seq<Task>, account: string, limit: nat, gone: set<string>, other: string, m: nat)
    requires WellKeyed(tasks)
    requires forall x :: x in tasks && x.sid in gone ==>
             x.account == Some(account) && x !in ListHistory(tasks, account, limit)
    ensures ListHistory(Keep(tasks, gone), account, limit) == ListHistory(tasks, account, limit)
    ensures other != account ==> ListHistory(Keep(tasks, gone), other, m) == ListHistory(tasks, other, m)
  {
    ListAfterDelete(tasks, account, limit, gone);
    ListAfterDelete(tasks, other, m, gone);
    var own := NewestFirst(OfAccount(tasks, account));
    forall x | x in Take(own, limit)
      ensures x.sid !in gone
    {
      InOwnList(tasks, account, x);
    }
    KeepHead(own, limit, gone);
    if other != account {
      var theirs := NewestFirst(OfAccount(tasks, other));
      forall x | x in theirs
        ensures x.sid !in gone
      {
        InOwnList(tasks, other, x);
      }
      KeepAll(theirs, gone);
    }
  }

  /**
   Whatever happens in the unlocked phase to files, marks and history rows, prune_history deletes no row that is then
   among the newest `limit` of its account and none of another account, unless a candidate was recorded again.
   */
  lemma PruneHistoryKeepsHeads(tasks: seq<Task>, cache: Table, account: string, limit: nat, now: int, disk: set<string>,
                               todo: seq<string>, schedule: seq<Action>, changes: seq<TableChange>, later: int,
                               other: string, m: nat)
    requires WellKeyed(tasks) && Orderly(tasks, changes, SelectPrune(tasks, cache, account, limit, now))
    ensures var sids := SelectPrune(tasks, cache, account, limit, now);
            var gone := Deleted(cache, sids, Exec(Begin(cache, disk, todo), schedule), later);
            var tasks' := AfterChanges(tasks, changes);
            && ListHistory(Keep(tasks', gone), account, limit) == ListHistory(tasks', account, limit)
            && (other != account ==> ListHistory(Keep(tasks', gone), other, m) == ListHistory(tasks', other, m))
  {
    var sids := SelectPrune(tasks, cache, account, limit, now);
    var gone := Deleted(cache, sids, Exec(Begin(cache, disk, todo), schedule), later);
    var tasks' := AfterChanges(tasks, changes);
    ChangesGrow(tasks, changes, sids);
    forall x | x in tasks' && x.sid in gone
      ensures x.account == Some(account) && x !in ListHistory(tasks', account, limit)
    {
      var t :| t in tasks && t.sid == x.sid && Prunable(tasks, cache, account, limit, now, t);
      CandidatesAreSafe(tasks, cache, account, limit, now, t);
      var t' :| t' in tasks' && Succeeds(t, t', sids);
      SameSidSameTask(tasks', t', x);
      CandidateStaysBehind(tasks, tasks', account, limit, sids, t, x);
    }
    DeleteKeepsLists(tasks', account, limit, gone, other, m);
  }

  /** Recording a candidate again while its files are removed does delete the new row, though it heads the list. */
  lemma RecordedAgainIsDeleted(tasks: seq<Task>, cache: Table, account: string, limit: nat, now: int, t: Task, s: State,
                               later: int)
    requires WellKeyed(tasks) && Plausible(tasks, Recorded(t)) && limit > 0
    requires t.account == Some(account) &&
             t.sid in Deleted(cache, SelectPrune(tasks, cache, account, limit, now), s, later)
    ensures var tasks' := Changed(tasks, Recorded(t));
            var gone := Deleted(cache, SelectPrune(tasks, cache, account, limit, now), s, later);
            t in ListHistory(tasks', account, limit) && t !in Keep(tasks', gone)
  {
    var tasks' := Changed(tasks, Recorded(t));
    ChangeGrows(tasks, Recorded(t), {});
    KeepMembers(tasks, {t.sid});
    InHeadIff(tasks', account, limit, t);
    assert NewerSids(tasks', account, t) == {};
    KeepMembers(tasks', Deleted(cache, SelectPrune(tasks, cache, account, limit, now), s, later));
  }
}
