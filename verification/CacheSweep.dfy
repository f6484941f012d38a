/** The cache sweep: TTL and quota selection, removal of files, removal of rows. */
module CacheSweep {
  import opened Wrappers
  import opened CacheIndex

  const LRU_LOW_WATERMARK_PERCENT: nat := 80
  const U64_MAX: nat := 0xFFFF_FFFF_FFFF_FFFF
  const SQL_SUM_LIMIT: nat := 0x8000_0000_0000_0000

  datatype Policy = Policy(ttlHours: nat, maxSizeBytes: nat)

  function LowWatermark(p: Policy): nat {
    p.maxSizeBytes / 100 * LRU_LOW_WATERMARK_PERCENT
  }

  function SatAdd(a: nat, b: nat): nat {
    if a + b > U64_MAX then U64_MAX else a + b
  }

  function SatSub(a: nat, b: nat): nat {
    if a >= b then a - b else 0
  }

  // ----- queries -----

  datatype Row = Row(path: string, size: nat)

  predicate IsExpired(e: Entry, policy: Policy, now: int) {
    now - e.createdAt > policy.ttlHours * 3600 && !Locked(e, now)
  }

  ghost predicate RowsOf(rows: seq<Row>, t: Table) {
    && (forall i, j :: 0 <= i < j < |rows| ==> rows[i].path != rows[j].path)
    && (forall i :: 0 <= i < |rows| ==> rows[i].path in t && t[rows[i].path].size == rows[i].size)
  }

  /** What the TTL query returns, in any order. */
  ghost predicate ExpiredRows(rows: seq<Row>, t: Table, policy: Policy, now: int) {
    RowsOf(rows, t) && forall p :: p in Paths(rows) <==> p in t && IsExpired(t[p], policy, now)
  }

  /** What the LRU query returns: all unlocked rows, least recently accessed first, ties in any order. */
  ghost predicate CandidateRows(rows: seq<Row>, t: Table, now: int) {
    && RowsOf(rows, t)
    && (forall p :: p in Paths(rows) <==> p in t && !Locked(t[p], now))
    && (forall i, j :: 0 <= i < j < |rows| ==> t[rows[i].path].lastAccessed <= t[rows[j].path].lastAccessed)
  }

  function Paths(rows: seq<Row>): (p: seq<string>)
    ensures |p| == |rows| && forall i :: 0 <= i < |rows| ==> p[i] == rows[i].path
  {
    seq(|rows|, i requires 0 <= i < |rows| => rows[i].path)
  }

  // ----- sizes -----

  ghost function SumOver(t: Table, s: set<string>): nat
    requires s <= t.Keys
  {
    if s == {} then 0
    else
      var p :| p in s;
      t[p].size + SumOver(t, s - {p})
  }

  lemma {:induction false} SumWithout(t: Table, s: set<string>, p: string)
    requires s <= t.Keys && p in s
    ensures SumOver(t, s) == t[p].size + SumOver(t, s - {p})
    decreases |s|
  {
    var q :| q in s && SumOver(t, s) == t[q].size + SumOver(t, s - {q});
    if q != p {
      SumWithout(t, s - {q}, p);
      SumWithout(t, s - {p}, q);
      assert s - {q} - {p} == s - {p} - {q};
    }
  }

  ghost function Kept(t: Table, victims: seq<string>): nat {
    SumOver(t, t.Keys - SetOf(victims))
  }

  lemma KeptStep(t: Table, victims: seq<string>, p: string)
    requires p in t && p !in victims
    ensures Kept(t, victims) == t[p].size + Kept(t, victims + [p])
  {
    SumWithout(t, t.Keys - SetOf(victims), p);
    assert t.Keys - SetOf(victims) - {p} == t.Keys - SetOf(victims + [p]);
  }

  // ----- phase 1: selection -----

  /** The candidates the TTL part has not chosen already, in order. */
  function Unexpired(candidates: seq<Row>, chosen: seq<string>): seq<string> {
    if candidates == [] then []
    else
      var rest := Unexpired(candidates[..|candidates| - 1], chosen);
      var p := candidates[|candidates| - 1].path;
      if p in chosen then rest else rest + [p]
  }

  /** `lru` is the shortest prefix of `order` that brings what is kept down to `low`, or all of it. */
  ghost predicate ShortestEnough(t: Table, expired: seq<string>, order: seq<string>, lru: seq<string>, low: nat) {
    && lru <= order
    && (forall j :: 0 <= j < |lru| ==> Kept(t, expired + lru[..j]) > low)
    && (|lru| < |order| ==> Kept(t, expired + lru) <= low)
  }

  /** SUM(file_size): an integer overflow is an SQL error, which the caller turns into 0. */
  ghost function QueriedTotal(t: Table): nat {
    var sum := SumOver(t, t.Keys);
    if sum < SQL_SUM_LIMIT then sum else 0
  }

  method SumFreed(rows: seq<Row>, ghost t: Table) returns (victims: seq<string>, freed: nat)
    requires RowsOf(rows, t)
    ensures victims == Paths(rows)
    ensures SumOver(t, t.Keys) <= U64_MAX ==> freed == SumOver(t, t.Keys) - Kept(t, victims)
  {
    victims, freed := [], 0;
    assert t.Keys - SetOf([]) == t.Keys;
    for n := 0 to |rows|
      invariant victims == Paths(rows[..n])
      invariant freed <= U64_MAX
      invariant SumOver(t, t.Keys) <= U64_MAX ==> freed + Kept(t, victims) == SumOver(t, t.Keys)
    {
      KeptStep(t, victims, rows[n].path);
      freed := SatAdd(freed, rows[n].size);
      victims := victims + [rows[n].path];
      assert rows[..n + 1] == rows[..n] + [rows[n]];
    }
    assert rows[..|rows|] == rows;
  }

  /** The quota loop: takes candidates until what remains is at most `low`. */
  method PickLru(expired: seq<string>, candidates: seq<Row>, total: nat, low: nat, ghost t: Table)
    returns (lru: seq<string>)
    requires RowsOf(candidates, t)
    requires total == Kept(t, expired)
    ensures ShortestEnough(t, expired, Unexpired(candidates, expired), lru, low)
  {
    lru := [];
    var remaining := total;
    var chosen := set p | p in expired;
    assert expired + [] == expired;
    var n := 0;
    while n < |candidates| && remaining > low
      invariant 0 <= n <= |candidates|
      invariant lru == Unexpired(candidates[..n], expired)
      invariant forall p :: p in chosen <==> p in expired || p in lru
      invariant forall p :: p in lru ==> p in Paths(candidates[..n])
      invariant remaining == Kept(t, expired + lru)
      invariant forall j :: 0 <= j < |lru| ==> Kept(t, expired + lru[..j]) > low
      decreases |candidates| - n
    {
      var row := candidates[n];
      assert candidates[..n + 1] == candidates[..n] + [row];
      assert row.path !in Paths(candidates[..n]);
      if row.path !in chosen {
        KeptStep(t, expired + lru, row.path);
        assert expired + lru + [row.path] == expired + (lru + [row.path]);
        remaining := SatSub(remaining, row.size);
        chosen := chosen + {row.path};
        ghost var before := lru;
        lru := lru + [row.path];
        assert forall j :: 0 <= j < |lru| ==> lru[..j] == before[..j];
        assert before[..|before|] == before;
      }
      n := n + 1;
    }
    UnexpiredPrefix(candidates, expired, n);
    assert candidates[..|candidates|] == candidates;
  }

  lemma {:induction false} UnexpiredPrefix(candidates: seq<Row>, chosen: seq<string>, n: nat)
    requires n <= |candidates|
    ensures Unexpired(candidates[..n], chosen) <= Unexpired(candidates, chosen)
  {
    if n == |candidates| {
      assert candidates[..n] == candidates;
    } else {
      var m := |candidates| - 1;
      UnexpiredPrefix(candidates[..m], chosen, n);
      assert candidates[..m][..n] == candidates[..n];
    }
  }

  /** `victims` is what phase 1 may return. */
  ghost predicate Selected(victims: seq<string>, policy: Policy, expiredRows: seq<Row>, candidates: seq<Row>,
                           t: Table) {
    var expired := if policy.ttlHours > 0 then Paths(expiredRows) else [];
    && expired <= victims
    && var lru := victims[|expired|..];
       if policy.maxSizeBytes == 0 || SumOver(t, t.Keys) >= SQL_SUM_LIMIT then lru == []
       else ShortestEnough(t, expired, Unexpired(candidates, expired), lru, LowWatermark(policy))
  }

  /** Phase 1 of sweep: expired files first, then as many of the least recently used as the quota needs. */
  method SelectVictims(policy: Policy, expiredRows: seq<Row>, candidates: seq<Row>, sqlTotal: nat, ghost t: Table,
                       ghost now: int)
    returns (victims: seq<string>)
    requires ExpiredRows(expiredRows, t, policy, now) && CandidateRows(candidates, t, now)
    requires sqlTotal == QueriedTotal(t)
    ensures Selected(victims, policy, expiredRows, candidates, t)
  {
    victims := [];
    var ttlFreed := 0;
    assert t.Keys - SetOf([]) == t.Keys;
    if policy.ttlHours > 0 {
      victims, ttlFreed := SumFreed(expiredRows, t);
    }
    ghost var expired := victims;
    if policy.maxSizeBytes > 0 {
      var remaining := SatSub(sqlTotal, ttlFreed);
      var low := LowWatermark(policy);
      if remaining > low {
        var lru := PickLru(victims, candidates, remaining, low, t);
        victims := victims + lru;
        assert victims[|expired|..] == lru;
      } else {
        assert victims[|expired|..] == [];
        assert expired + [] == expired;
      }
    }
  }

  // ----- what the selection means -----

  lemma {:induction false} UnexpiredMembers(candidates: seq<Row>, chosen: seq<string>, t: Table)
    requires RowsOf(candidates, t)
    ensures var u := Unexpired(candidates, chosen);
            && (forall p :: p in u <==> p in Paths(candidates) && p !in chosen)
            && (forall i, j :: 0 <= i < j < |u| ==> u[i] != u[j])
  {
    if candidates == [] {
    } else {
      var n := |candidates| - 1;
      UnexpiredMembers(candidates[..n], chosen, t);
      assert candidates == candidates[..n] + [candidates[n]];
      assert candidates[n].path !in Paths(candidates[..n]);
    }
  }

  lemma {:induction false} UnexpiredSorted(candidates: seq<Row>, chosen: seq<string>, t: Table)
    requires RowsOf(candidates, t)
    requires forall i, j :: 0 <= i < j < |candidates| ==>
             t[candidates[i].path].lastAccessed <= t[candidates[j].path].lastAccessed
    ensures var u := Unexpired(candidates, chosen);
            forall i, j :: 0 <= i < j < |u| ==> u[i] in t && u[j] in t && t[u[i]].lastAccessed <= t[u[j]].lastAccessed
  {
    if candidates == [] {
    } else {
      var n := |candidates| - 1;
      UnexpiredSorted(candidates[..n], chosen, t);
      UnexpiredMembers(candidates[..n], chosen, t);
      var u := Unexpired(candidates[..n], chosen);
      forall i | 0 <= i < |u|
        ensures u[i] in t && t[u[i]].lastAccessed <= t[candidates[n].path].lastAccessed
      {
        assert u[i] in Paths(candidates[..n]);
        var k :| 0 <= k < n && Paths(candidates[..n])[k] == u[i];
      }
    }
  }

  lemma DistinctConcat(a: seq<string>, b: seq<string>, longer: seq<string>)
    requires Distinct(a) && Distinct(longer) && b <= longer
    requires forall p :: p in longer ==> p !in a
    ensures Distinct(a + b)
  {
    forall i, j | 0 <= i < j < |a + b|
      ensures (a + b)[i] != (a + b)[j]
    {
      if i < |a| <= j {
        assert (a + b)[i] in a && (a + b)[j] == longer[j - |a|];
      } else if |a| <= i {
        assert longer[i - |a|] == (a + b)[i] && longer[j - |a|] == (a + b)[j];
      }
    }
  }

  /** The TTL part and the quota part of a selection. */
  lemma SelectionParts(victims: seq<string>, policy: Policy, expiredRows: seq<Row>, candidates: seq<Row>, t: Table,
                       now: int)
    returns (expired: seq<string>, lru: seq<string>, order: seq<string>)
    requires ExpiredRows(expiredRows, t, policy, now) && CandidateRows(candidates, t, now)
    requires Selected(victims, policy, expiredRows, candidates, t)
    ensures expired == if policy.ttlHours > 0 then Paths(expiredRows) else []
    ensures victims == expired + lru && lru <= order
    ensures forall p :: p in order <==> p in t && !Locked(t[p], now) && p !in expired
    ensures Distinct(expired) && Distinct(order)
    ensures forall i, j :: 0 <= i < j < |order| ==> t[order[i]].lastAccessed <= t[order[j]].lastAccessed
    ensures policy.maxSizeBytes > 0 && SumOver(t, t.Keys) < SQL_SUM_LIMIT ==>
              ShortestEnough(t, expired, order, lru, LowWatermark(policy))
  {
    expired := if policy.ttlHours > 0 then Paths(expiredRows) else [];
    lru := victims[|expired|..];
    order := Unexpired(candidates, expired);
    UnexpiredMembers(candidates, expired, t);
    UnexpiredSorted(candidates, expired, t);
  }

  /** No victim twice, none immune, and every expired file chosen. */
  lemma SelectionIsSound(victims: seq<string>, policy: Policy, expiredRows: seq<Row>, candidates: seq<Row>, t: Table,
                         now: int)
    requires ExpiredRows(expiredRows, t, policy, now) && CandidateRows(candidates, t, now)
    requires Selected(victims, policy, expiredRows, candidates, t)
    ensures Distinct(victims)
    ensures forall p :: p in victims ==> p in t && !Locked(t[p], now)
    ensures policy.ttlHours > 0 ==> forall p :: p in t && IsExpired(t[p], policy, now) ==> p in victims
  {
    var expired, lru, order := SelectionParts(victims, policy, expiredRows, candidates, t, now);
    DistinctConcat(expired, lru, order);
    forall p | p in victims
      ensures p in t && !Locked(t[p], now)
    {
      if p !in expired {
        assert p in lru;
        assert p in order;
      } else {
        assert p in Paths(expiredRows);
      }
    }
  }

  /** Least recently used: no unlocked file that was kept was last used before a victim of the quota. */
  lemma QuotaTakesOldest(victims: seq<string>, policy: Policy, expiredRows: seq<Row>, candidates: seq<Row>, t: Table,
                         now: int, p: string, q: string)
    requires ExpiredRows(expiredRows, t, policy, now) && CandidateRows(candidates, t, now)
    requires Selected(victims, policy, expiredRows, candidates, t)
    requires p in victims && p in t && !(policy.ttlHours > 0 && IsExpired(t[p], policy, now))
    requires q in t && !Locked(t[q], now) && q !in victims
    ensures t[p].lastAccessed <= t[q].lastAccessed
  {
    var expired, lru, order := SelectionParts(victims, policy, expiredRows, candidates, t, now);
    assert p in lru && q in order;
    var i :| 0 <= i < |lru| && lru[i] == p;
    var j :| 0 <= j < |order| && order[j] == q;
    assert order[i] == p;
    assert q !in lru;
  }

  /** After the selection the kept bytes are within the low watermark, unless only immune files are left to take. */
  lemma SelectionMeetsQuota(victims: seq<string>, policy: Policy, expiredRows: seq<Row>, candidates: seq<Row>, t: Table,
                            now: int)
    requires ExpiredRows(expiredRows, t, policy, now) && CandidateRows(candidates, t, now)
    requires Selected(victims, policy, expiredRows, candidates, t)
    requires policy.maxSizeBytes > 0 && SumOver(t, t.Keys) < SQL_SUM_LIMIT
    ensures Kept(t, victims) <= LowWatermark(policy) || forall p :: p in t && !Locked(t[p], now) ==> p in victims
  {
    var expired, lru, order := SelectionParts(victims, policy, expiredRows, candidates, t, now);
    if Kept(t, victims) > LowWatermark(policy) {
      assert lru == order;
    }
  }

  // ----- phase 3 and the whole -----

  /** Phase 3: rows of removed files go, unless injected in the meantime. */
  method DeleteRows(t: Table, removed: seq<string>, now: int) returns (t': Table, deleted: nat)
    ensures t' == RowsAfter(t, removed, now)
    ensures deleted == Deletions(t, removed, now)
  {
    t', deleted := t, 0;
    for n := 0 to |removed|
      invariant t' == RowsAfter(t, removed[..n], now) && deleted == Deletions(t, removed[..n], now)
    {
      var p := removed[n];
      assert removed[..n + 1][..n] == removed[..n];
      assert removed[..n + 1] == removed[..n] + [p];
      if p in t' && Locked(t'[p], now) {
        continue;
      }
      t' := t' - {p};
      deleted := deleted + 1;
    }
    assert removed[..|removed|] == removed;
  }

  /** How many of the removed files' rows are not inside the immunity window. */
  function Deletions(t: Table, removed: seq<string>, now: int): nat {
    if removed == [] then 0
    else
      var p := removed[|removed| - 1];
      Deletions(t, removed[..|removed| - 1], now) + if p in t && Locked(t[p], now) then 0 else 1
  }

  function RowsAfter(t: Table, removed: seq<string>, now: int): Table {
    map p | p in t && (p !in removed || Locked(t[p], now)) :: t[p]
  }

  /** The whole sweep: victims chosen on `t`, any schedule of the unlocked phase, rows deleted at `now`. */
  function SweepResult(t: Table, disk: set<string>, victims: seq<string>, schedule: seq<Action>, now: int)
    : (Table, set<string>)
  {
    var s := Exec(Begin(t, disk, victims), schedule);
    (RowsAfter(s.table, s.removed, now), s.disk)
  }

  /** The sweep when nothing else runs between its phases; `stuck` are the paths whose removal fails. */
  method Sweep(policy: Policy, expiredRows: seq<Row>, candidates: seq<Row>, sqlTotal: nat, t: Table, disk: set<string>,
               stuck: set<string>, ghost now: int, later: int)
    returns (t': Table, disk': set<string>, deleted: nat, victims: seq<string>, ghost schedule: seq<Action>)
    requires ExpiredRows(expiredRows, t, policy, now) && CandidateRows(candidates, t, now)
    requires sqlTotal == QueriedTotal(t)
    ensures Selected(victims, policy, expiredRows, candidates, t)
    ensures OnlyRemovals(schedule) && Exec(Begin(t, disk, victims), schedule).todo == []
    ensures (t', disk') == SweepResult(t, disk, victims, schedule, later)
    ensures disk' == disk - (SetOf(victims) - stuck)
    ensures forall p :: p in t' <==> p in t && (p !in victims || (p in disk && p in stuck) || Locked(t[p], later))
    ensures forall p :: p in t' ==> t'[p] == t[p]
    ensures deleted <= |victims|
  {
    victims := SelectVictims(policy, expiredRows, candidates, sqlTotal, t, now);
    var removed;
    removed, disk', schedule := RemoveFiles(t, disk, victims, stuck);
    RemovalsKeepTable(Begin(t, disk, victims), schedule);
    t', deleted := DeleteRows(t, removed, later);
    DeletionsBound(t, removed, later);
  }

  lemma {:induction false} DeletionsBound(t: Table, removed: seq<string>, now: int)
    ensures Deletions(t, removed, now) <= |removed|
  {
    if removed == [] {
    } else {
      DeletionsBound(t, removed[..|removed| - 1], now);
    }
  }

  /**
   No orphan: a file indexed before and on disk after is indexed after, unless it was received anew during the
   sweep.
   */
  lemma SweepOrphansNothing(t: Table, disk: set<string>, victims: seq<string>, schedule: seq<Action>, now: int,
                            path: string)
    requires path in t && !Receives(schedule, path)
    ensures var (t', disk') := SweepResult(t, disk, victims, schedule, now);
            path in disk' ==> path in t' && path in disk
  {
    var s0 := Begin(t, disk, victims);
    RowsStay(s0, schedule, path);
    RemovedIsGone(s0, schedule, path);
  }

  /** A row leaves only if its file was a victim and is gone; so a failed removal keeps the row for the next round. */
  lemma SweepDropsOnlyGoneVictims(t: Table, disk: set<string>, victims: seq<string>, schedule: seq<Action>, now: int,
                                  path: string)
    requires path in t && !Receives(schedule, path)
    ensures var (t', disk') := SweepResult(t, disk, victims, schedule, now);
            && (path !in t' ==> path in victims && path !in disk')
            && (path in disk && path !in disk' ==> path in victims)
  {
    var s0 := Begin(t, disk, victims);
    RowsStay(s0, schedule, path);
    RemovedIsGone(s0, schedule, path);
    ListWorkedOff(s0, schedule);
    var s := Exec(s0, schedule);
    assert path in s.removed ==> path in victims[..|victims| - |s.todo|];
  }

  /** An entry injected during the unlocked phase keeps its row. */
  lemma SweepKeepsInjected(t: Table, disk: set<string>, victims: seq<string>, schedule: seq<Action>, now: int,
                           path: string)
    requires path in t && !Receives(schedule, path)
    requires var last := LastInjection(schedule, t[path].session);
             last.Some? && now - last.value <= CLIPBOARD_LOCK_SECS
    ensures path in SweepResult(t, disk, victims, schedule, now).0
  {
    InjectionRecorded(Begin(t, disk, victims), schedule, path);
  }

  /** The path's last reception carries a clipboard mark that is inside the window at `now`. */
  predicate MarkedSince(schedule: seq<Action>, k: nat, now: int)
    requires k < |schedule| && schedule[k].Receive?
  {
    var last := LastInjection(schedule[k + 1..], schedule[k].session);
    last.Some? && now - last.value <= CLIPBOARD_LOCK_SECS
  }

  /**
   Exactly when a sweep orphans a file: it was last received after the sweep had removed its predecessor, and its
   session has no injection since that is inside the window when the rows are deleted.
   */
  lemma SweepOrphansExactly(t: Table, disk: set<string>, victims: seq<string>, schedule: seq<Action>, now: int,
                            path: string)
    requires Distinct(victims)
    requires path in t || Receives(schedule, path)
    ensures var (t', disk') := SweepResult(t, disk, victims, schedule, now);
            var k := LastReceive(schedule, path);
            (path in disk' && path !in t') <==>
            && k.Some?
            && path in Exec(Begin(t, disk, victims), schedule[..k.value]).removed
            && !MarkedSince(schedule, k.value, now)
  {
    var s0 := Begin(t, disk, victims);
    var k := LastReceive(schedule, path);
    if k.None? {
      SweepOrphansNothing(t, disk, victims, schedule, now, path);
    } else {
      RowAtEnd(s0, schedule, path);
      ReceivedOnDisk(s0, schedule, path, k.value);
    }
  }

  /** Receiving a victim's path again while the sweep runs unlocked does orphan the new file. */
  lemma ReceiveDuringSweepOrphans()
    ensures var e := Entry("s", 1, 0, None, 0);
            var schedule := [TryRemove(true), Receive("f", "s2", 1, 5)];
            var (t', disk') := SweepResult(map["f" := e], {"f"}, ["f"], schedule, 6);
            "f" in disk' && "f" !in t'
  {
    var s0 := Begin(map["f" := Entry("s", 1, 0, None, 0)], {"f"}, ["f"]);
    var schedule := [TryRemove(true), Receive("f", "s2", 1, 5)];
    assert schedule[..1] == [TryRemove(true)] && schedule[..1][..0] == [];
    var s1 := Act(s0, TryRemove(true));
    assert s1.removed == ["f"];
    assert Exec(s0, schedule[..1]) == s1;
    assert Exec(s0, schedule) == Act(s1, schedule[1]);
  }
}
