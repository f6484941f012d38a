/** Which files and history entries go, in the times, sizes and statuses of their rows alone. */
module Retention {
  import opened Wrappers
  import opened CacheIndex
  import opened CacheSweep
  import opened HistoryPrune

  // ----- the immunity window -----

  /** The file was put on the clipboard no more than two hours ago. */
  predicate Recent(e: Entry, now: int) {
    e.injectedAt.Some? && now <= e.injectedAt.value + 2 * 60 * 60
  }

  /** Putting a session on the clipboard protects all its files for two hours and changes no other file's row. */
  lemma MarkProtects(t: Table, session: string, at: int, p: string, now: int)
    requires p in t
    ensures var t' := MarkInjected(t, session, at);
            && t'.Keys == t.Keys
            && (t[p].session != session ==> t'[p] == t[p])
            && (t[p].session == session ==>
                  t'[p] == t[p].(injectedAt := Some(at)) && (Locked(t'[p], now) <==> now <= at + 2 * 60 * 60))
  {
  }

  lemma ImmuneMeansRecent(cache: Table, sid: string, now: int)
    ensures Immune(cache, sid, now) <==> exists p :: p in cache && cache[p].session == sid && Recent(cache[p], now)
  {
    if Immune(cache, sid, now) {
      var p :| p in cache && cache[p].session == sid && Locked(cache[p], now);
      assert Recent(cache[p], now);
    }
    if p :| p in cache && cache[p].session == sid && Recent(cache[p], now) {
      assert Locked(cache[p], now);
    }
  }

  // ----- the sweep -----

  /** Without a size limit the victims are exactly the files past their lifetime that were not injected lately. */
  lemma LifetimeVictimsExactly(victims: seq<string>, policy: Policy, expiredRows: seq<Row>, candidates: seq<Row>,
                               t: Table, now: int, p: string)
    requires ExpiredRows(expiredRows, t, policy, now) && CandidateRows(candidates, t, now)
    requires Selected(victims, policy, expiredRows, candidates, t) && policy.maxSizeBytes == 0
    ensures p in victims <==>
            p in t && policy.ttlHours > 0 && now > t[p].createdAt + policy.ttlHours * 3600 && !Recent(t[p], now)
  {
    assert p in victims <==> policy.ttlHours > 0 && p in Paths(expiredRows);
  }

  /** 80 percent of the limit, rounded down by less than 80 bytes. */
  lemma WatermarkIsFourFifths(policy: Policy)
    ensures var low := LowWatermark(policy);
            100 * low <= 80 * policy.maxSizeBytes < 100 * low + 8000
  {
  }

  /**
   With a size limit, what stays takes at most 80 percent of it, or only recently injected files stay; and no file that
   is within its lifetime was taken unless what stayed without it was more than 80 percent, less at most 80 bytes.
   */
  lemma QuotaVictimsNeeded(victims: seq<string>, policy: Policy, expiredRows: seq<Row>, candidates: seq<Row>,
                           t: Table, now: int)
    requires ExpiredRows(expiredRows, t, policy, now) && CandidateRows(candidates, t, now)
    requires Selected(victims, policy, expiredRows, candidates, t)
    requires policy.maxSizeBytes > 0 && SumOver(t, t.Keys) < 0x8000_0000_0000_0000
    ensures 100 * Kept(t, victims) <= 80 * policy.maxSizeBytes ||
            forall p :: p in t && !Recent(t[p], now) ==> p in victims
    ensures victims != [] ==>
              var last := victims[|victims| - 1];
              (last in t && !(policy.ttlHours > 0 && now > t[last].createdAt + policy.ttlHours * 3600) ==>
                 100 * Kept(t, victims[..|victims| - 1]) > 80 * policy.maxSizeBytes - 8000)
  {
    SelectionMeetsQuota(victims, policy, expiredRows, candidates, t, now);
    WatermarkIsFourFifths(policy);
    var expired, lru, order := SelectionParts(victims, policy, expiredRows, candidates, t, now);
    if lru != [] {
      assert victims[..|victims| - 1] == expired + lru[..|lru| - 1];
    } else if victims != [] {
      assert victims[|victims| - 1] == expired[|expired| - 1];
      assert victims[|victims| - 1] in Paths(expiredRows);
    }
  }

  // ----- the history -----

  /** The account's entries that were created after this one, or in the same second and recorded after it. */
  ghost function Later(tasks: seq<Task>, x: Task): set<string> {
    set y | y in tasks && y.account == x.account &&
            (y.createdAt > x.createdAt || (y.createdAt == x.createdAt && y.rowid > x.rowid)) :: y.sid
  }

  /** The list shows entry after entry from the newest on. */
  lemma ListedNewestFirst(tasks: seq<Task>, account: string, limit: nat, i: nat, j: nat)
    requires WellKeyed(tasks) && i < j < |ListHistory(tasks, account, limit)|
    ensures var a, b := ListHistory(tasks, account, limit)[i], ListHistory(tasks, account, limit)[j];
            && a.account == b.account == Some(account)
            && (a.createdAt > b.createdAt || (a.createdAt == b.createdAt && a.rowid > b.rowid))
  {
    OfAccountMembers(tasks, account);
    NewestFirstSorts(OfAccount(tasks, account));
    var own := NewestFirst(OfAccount(tasks, account));
    assert own[i] in own && own[j] in own;
  }

  /** An entry is a candidate exactly if it has ended, `limit` newer ones exist and none of its files is recent. */
  lemma CandidatesExactly(tasks: seq<Task>, cache: Table, account: string, limit: nat, now: int, t: Task)
    requires WellKeyed(tasks) && t in tasks
    ensures t.sid in SelectPrune(tasks, cache, account, limit, now) <==>
            && limit > 0 && t.account == Some(account) && t.status != PENDING && t.status != TRANSFERRING
            && |Later(tasks, t)| >= limit
            && forall p :: p in cache && cache[p].session == t.sid ==> !Recent(cache[p], now)
  {
    CandidatesAreSafe(tasks, cache, account, limit, now, t);
    ImmuneMeansRecent(cache, t.sid, now);
    if t.account == Some(account) {
      InHeadIff(tasks, account, limit, t);
      assert Later(tasks, t) == NewerSids(tasks, account, t);
    }
  }

  /** What an undisturbed prune takes: candidates whose files all go and none of which was injected by then. */
  lemma PrunedExactly(tasks: seq<Task>, cache: Table, account: string, limit: nat, now: int, disk: set<string>,
                      stuck: set<string>, later: int, t: Task)
    requires WellKeyed(tasks) && t in tasks
    ensures t in Keep(tasks, Undisturbed(tasks, cache, account, limit, now, disk, stuck, later)) <==>
            || t.sid !in SelectPrune(tasks, cache, account, limit, now)
            || exists p :: p in cache && cache[p].session == t.sid && (Recent(cache[p], later) || p in disk * stuck)
  {
    ImmuneMeansRecent(cache, t.sid, later);
    KeepMembers(tasks, Undisturbed(tasks, cache, account, limit, now, disk, stuck, later));
  }
}
