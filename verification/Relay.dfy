/**
 The relay manager: two maps, authorizations and pipes, under one lock. `RelayState` is their value with one
 function per entry point; the class `RelayManager` updates them in place. Times are in nanoseconds.
 */
module Relay {
  import opened Wrappers
  import opened Sets

  const MAX_CONCURRENT_PIPES: nat := 200

  datatype Auth = Auth(sender: string, receiver: string, account: string, token: string, expiresAt: int)

  datatype Pipe = Pipe(account: string, fromDevice: string, toDevice: string, lastActive: int)

  datatype RelayState = RelayState(pipes: map<string, Pipe>, auths: map<string, Auth>)

  datatype RelayError =
    | ErrServerBusy | ErrUnauthorized | ErrDeviceMismatch | ErrConcurrencyLimit
    | ErrSessionIDConflict | ErrAccountPipeLimit | ErrRandom

  /** The `role` query parameter. */
  datatype Role = SenderRole | ReceiverRole | OtherRole

  datatype Teardown = TeardownOK | TeardownNotFound | TeardownDenied(owner: string)

  /** Whether an authorization entry still binds anything. */
  predicate Live(s: RelayState, id: string, now: int)
    requires id in s.auths
  {
    now < s.auths[id].expiresAt || id in s.pipes
  }

  function LiveSet(s: RelayState, account: string, now: int): set<string> {
    set id | id in s.auths && s.auths[id].account == account && Live(s, id, now)
  }

  function PipeSet(s: RelayState, account: string): set<string> {
    set id | id in s.pipes && s.pipes[id].account == account
  }

  function InFlight(s: RelayState, account: string, exclude: string, now: int): nat {
    |LiveSet(s, account, now) - {exclude}|
  }

  predicate SamePair(a: Auth, sender: string, receiver: string, account: string) {
    a.account == account && a.sender == sender && a.receiver == receiver
  }

  /** AuthorizeSessionIfUnderLimit; `token` is None when the random source fails. */
  function Authorize(s: RelayState, id: string, sender: string, receiver: string, account: string,
                     ttl: int, limit: int, token: Option<string>, now: int)
    : (RelayState, Result<string, RelayError>, nat)
  {
    if id in s.auths && Live(s, id, now) && !SamePair(s.auths[id], sender, receiver, account) then
      (s, Err(ErrSessionIDConflict), 0)
    else
      var inFlight := InFlight(s, account, id, now);
      if limit > 0 && inFlight >= limit then (s, Err(ErrConcurrencyLimit), inFlight)
      else if token.None? then (s, Err(ErrRandom), inFlight)
      else
        var auth := Auth(sender, receiver, account, token.value, now + ttl);
        (s.(auths := s.auths[id := auth]), Ok(token.value), inFlight)
  }

  /** CheckAuthorization. */
  function Check(s: RelayState, id: string, role: Role, device: string, target: string, token: string,
                 now: int): Option<RelayError> {
    if id !in s.auths || !Live(s, id, now) then Some(ErrUnauthorized)
    else
      var auth := s.auths[id];
      if auth.token != token then Some(ErrUnauthorized)
      else if role == SenderRole then
        if device != auth.sender then Some(ErrDeviceMismatch)
        else if target != "" && target != auth.receiver then Some(ErrDeviceMismatch)
        else None
      else if role == ReceiverRole then
        if device != auth.receiver then Some(ErrDeviceMismatch)
        else if target != "" && target != auth.sender then Some(ErrDeviceMismatch)
        else None
      else Some(ErrUnauthorized)
  }

  /** ValidateAndGetOrCreatePipe. */
  function Validate(s: RelayState, id: string, role: Role, device: string, target: string, token: string,
                    maxPipes: int, now: int): (RelayState, Option<RelayError>) {
    var refused := Check(s, id, role, device, target, token, now);
    if refused.Some? then (s, refused)
    else
      var auth := s.auths[id];
      if id in s.pipes then
        if s.pipes[id].fromDevice != auth.sender || s.pipes[id].toDevice != auth.receiver then
          (s, Some(ErrUnauthorized))
        else (s.(pipes := s.pipes[id := s.pipes[id].(lastActive := now)]), None)
      else if maxPipes > 0 && |PipeSet(s, auth.account)| >= maxPipes then (s, Some(ErrAccountPipeLimit))
      else if |s.pipes| >= MAX_CONCURRENT_PIPES then (s, Some(ErrServerBusy))
      else (s.(pipes := s.pipes[id := Pipe(auth.account, auth.sender, auth.receiver, now)]), None)
  }

  /** RemovePipeForSession, with its four cases. */
  function Remove(s: RelayState, id: string, account: string, device: string): (RelayState, Teardown) {
    if id !in s.auths then
      if id !in s.pipes then (s, TeardownNotFound)
      else if s.pipes[id].account != account ||
              (device != s.pipes[id].fromDevice && device != s.pipes[id].toDevice) then
        (s, TeardownDenied(s.pipes[id].account))
      else (s.(pipes := s.pipes - {id}), TeardownOK)
    else if s.auths[id].account != account then (s, TeardownDenied(s.auths[id].account))
    else if device != s.auths[id].sender && device != s.auths[id].receiver then (s, TeardownDenied(s.auths[id].account))
    else (RelayState(s.pipes - {id}, s.auths - {id}), TeardownOK)
  }

  function IdleSet(s: RelayState, timeout: int, now: int): set<string> {
    set id | id in s.pipes && now - s.pipes[id].lastActive > timeout
  }

  /** SweepIdlePipes: idle pipes go with their authorizations, then authorizations that bind nothing. */
  function Sweep(s: RelayState, timeout: int, now: int): RelayState {
    var idle := IdleSet(s, timeout, now);
    var s1 := RelayState(s.pipes - idle, s.auths - idle);
    s1.(auths := map id | id in s1.auths && Live(s1, id, now) :: s1.auths[id])
  }

  /** A push or read on a live pipe stamps it. */
  function Touch(s: RelayState, id: string, now: int): RelayState {
    if id in s.pipes then s.(pipes := s.pipes[id := s.pipes[id].(lastActive := now)]) else s
  }

  // ----- runs -----

  datatype Op =
    | AuthorizeOp(id: string, sender: string, receiver: string, account: string, ttl: int, token: Option<string>)
    | ConnectOp(id: string, role: Role, device: string, target: string, tok: string)
    | TouchOp(id: string)
    | TeardownOp(id: string, account: string, device: string)
    | SweepOp(timeout: int)

  datatype Timed = Timed(now: int, op: Op)

  /** The limits on an account's transfers and on its pipes; not positive means none. */
  datatype Caps = Caps(transfers: int, pipes: int)

  /** One call. */
  function Step(s: RelayState, caps: Caps, t: Timed): RelayState {
    match t.op
    case AuthorizeOp(id, sender, receiver, account, ttl, token) =>
      Authorize(s, id, sender, receiver, account, ttl, caps.transfers, token, t.now).0
    case ConnectOp(id, role, device, target, tok) => Validate(s, id, role, device, target, tok, caps.pipes, t.now).0
    case TouchOp(id) => Touch(s, id, t.now)
    case TeardownOp(id, account, device) => Remove(s, id, account, device).0
    case SweepOp(timeout) => Sweep(s, timeout, t.now)
  }

  const EMPTY: RelayState := RelayState(map[], map[])

  function Exec(caps: Caps, run: seq<Timed>): RelayState {
    if run == [] then EMPTY else Step(Exec(caps, run[..|run| - 1]), caps, run[|run| - 1])
  }

  /** Time never runs backwards, and the run ends by `now`. */
  predicate Monotone(run: seq<Timed>, now: int) {
    run == [] || (run[|run| - 1].now <= now && Monotone(run[..|run| - 1], run[|run| - 1].now))
  }

  // ----- pairing -----

  /** Every pipe has the authorization it was made from. */
  ghost predicate Paired(s: RelayState) {
    forall id :: id in s.pipes ==>
      id in s.auths && SamePair(s.auths[id], s.pipes[id].fromDevice, s.pipes[id].toDevice, s.pipes[id].account)
  }

  lemma AuthorizeKeepsPaired(s: RelayState, id: string, sender: string, receiver: string, account: string,
                             ttl: int, limit: int, token: Option<string>, now: int)
    requires Paired(s)
    ensures Paired(Authorize(s, id, sender, receiver, account, ttl, limit, token, now).0)
  {
  }

  lemma ConnectKeepsPaired(s: RelayState, id: string, role: Role, device: string, target: string, token: string,
                           maxPipes: int, now: int)
    requires Paired(s)
    ensures Paired(Validate(s, id, role, device, target, token, maxPipes, now).0)
  {
  }

  lemma SweepKeepsPaired(s: RelayState, timeout: int, now: int)
    requires Paired(s)
    ensures Paired(Sweep(s, timeout, now))
  {
  }

  lemma StepKeepsPaired(s: RelayState, caps: Caps, t: Timed)
    requires Paired(s)
    ensures Paired(Step(s, caps, t))
  {
    match t.op
    case AuthorizeOp(id, sender, receiver, account, ttl, token) =>
      AuthorizeKeepsPaired(s, id, sender, receiver, account, ttl, caps.transfers, token, t.now);
    case ConnectOp(id, role, device, target, tok) =>
      ConnectKeepsPaired(s, id, role, device, target, tok, caps.pipes, t.now);
    case SweepOp(timeout) => SweepKeepsPaired(s, timeout, t.now);
    case TouchOp(_) =>
    case TeardownOp(_, _, _) =>
  }

  lemma {:induction false} RunsArePaired(caps: Caps, run: seq<Timed>)
    ensures Paired(Exec(caps, run))
  {
    if run == [] {
    } else {
      RunsArePaired(caps, run[..|run| - 1]);
      StepKeepsPaired(Exec(caps, run[..|run| - 1]), caps, run[|run| - 1]);
    }
  }

  /** A pipe without authorization never exists, so a teardown is granted only through the authorization entry. */
  lemma OrphanTeardownUnreachable(caps: Caps, run: seq<Timed>, id: string, account: string, device: string)
    ensures var s := Exec(caps, run);
            && !(id !in s.auths && id in s.pipes)
            && (Remove(s, id, account, device).1 == TeardownOK <==>
                  id in s.auths && s.auths[id].account == account &&
                  (device == s.auths[id].sender || device == s.auths[id].receiver))
            && (Remove(s, id, account, device).1 == TeardownNotFound <==> id !in s.auths)
  {
    RunsArePaired(caps, run);
  }

  /** The global cap holds in every reachable state. */
  lemma {:induction false} PipesBounded(caps: Caps, run: seq<Timed>)
    ensures |Exec(caps, run).pipes| <= MAX_CONCURRENT_PIPES
  {
    if run == [] {
    } else {
      PipesBounded(caps, run[..|run| - 1]);
      StepBoundsPipes(Exec(caps, run[..|run| - 1]), caps, run[|run| - 1]);
    }
  }

  lemma StepBoundsPipes(s: RelayState, caps: Caps, t: Timed)
    requires |s.pipes| <= MAX_CONCURRENT_PIPES
    ensures |Step(s, caps, t).pipes| <= MAX_CONCURRENT_PIPES
  {
    if t.op.ConnectOp? {
      ConnectBoundsPipes(s, t.op.id, t.op.role, t.op.device, t.op.target, t.op.tok, caps.pipes, t.now);
    } else {
      OtherStepsAddNoPipe(s, caps, t);
      FewerPipes(Step(s, caps, t).pipes, s.pipes);
    }
  }

  lemma OtherStepsAddNoPipe(s: RelayState, caps: Caps, t: Timed)
    requires !t.op.ConnectOp?
    ensures Step(s, caps, t).pipes.Keys <= s.pipes.Keys
  {
  }

  lemma FewerPipes(a: map<string, Pipe>, b: map<string, Pipe>)
    requires a.Keys <= b.Keys
    ensures |a| <= |b|
  {
    SubsetSize(a.Keys, b.Keys);
    assert |a| == |a.Keys| && |b| == |b.Keys|;
  }

  lemma OneMorePipe(a: map<string, Pipe>, id: string, p: Pipe)
    requires id !in a
    ensures |a[id := p]| == |a| + 1
  {
    assert a[id := p].Keys == a.Keys + {id};
    assert |a| == |a.Keys| && |a[id := p]| == |a[id := p].Keys|;
  }

  lemma ConnectBoundsPipes(s: RelayState, id: string, role: Role, device: string, target: string, tok: string,
                           maxPipes: int, now: int)
    requires |s.pipes| <= MAX_CONCURRENT_PIPES
    ensures |Validate(s, id, role, device, target, tok, maxPipes, now).0.pipes| <= MAX_CONCURRENT_PIPES
  {
    if Check(s, id, role, device, target, tok, now).None? {
      if id in s.pipes {
        FewerPipes(s.pipes[id := s.pipes[id].(lastActive := now)], s.pipes);
      } else {
        var auth := s.auths[id];
        OneMorePipe(s.pipes, id, Pipe(auth.account, auth.sender, auth.receiver, now));
      }
    }
  }

  // ----- the quota -----

  ghost predicate WithinQuota(s: RelayState, limit: nat, now: int) {
    forall account :: |LiveSet(s, account, now)| <= limit
  }

  /** As time passes entries only stop being live. */
  lemma LiveOnlyShrinks(s: RelayState, account: string, now: int, later: int)
    requires now <= later
    ensures LiveSet(s, account, later) <= LiveSet(s, account, now)
  {
  }

  lemma QuotaLater(s: RelayState, limit: nat, now: int, later: int)
    requires now <= later && WithinQuota(s, limit, now)
    ensures WithinQuota(s, limit, later)
  {
    forall account
      ensures |LiveSet(s, account, later)| <= limit
    {
      LiveOnlyShrinks(s, account, now, later);
      SubsetSize(LiveSet(s, account, later), LiveSet(s, account, now));
    }
  }

  lemma AuthorizeKeepsQuota(s: RelayState, limit: nat, now: int, id: string, sender: string, receiver: string,
                            account: string, ttl: int, token: Option<string>)
    requires limit > 0 && Paired(s) && WithinQuota(s, limit, now)
    ensures WithinQuota(Authorize(s, id, sender, receiver, account, ttl, limit, token, now).0, limit, now)
  {
    var (s', r, _) := Authorize(s, id, sender, receiver, account, ttl, limit, token, now);
    if r.Ok? {
      forall a
        ensures |LiveSet(s', a, now)| <= limit
      {
        if a == account {
          assert LiveSet(s', a, now) <= (LiveSet(s, a, now) - {id}) + {id};
          SubsetSize(LiveSet(s', a, now), (LiveSet(s, a, now) - {id}) + {id});
        } else {
          assert LiveSet(s', a, now) <= LiveSet(s, a, now);
          SubsetSize(LiveSet(s', a, now), LiveSet(s, a, now));
        }
      }
    }
  }

  lemma OtherStepsKeepQuota(s: RelayState, caps: Caps, limit: nat, t: Timed)
    requires limit > 0 && Paired(s) && WithinQuota(s, limit, t.now) && !t.op.AuthorizeOp?
    ensures WithinQuota(Step(s, caps, t), limit, t.now)
  {
    forall a
      ensures |LiveSet(Step(s, caps, t), a, t.now)| <= limit
    {
      assert LiveSet(Step(s, caps, t), a, t.now) <= LiveSet(s, a, t.now);
      SubsetSize(LiveSet(Step(s, caps, t), a, t.now), LiveSet(s, a, t.now));
    }
  }

  /**
   Quota theorem: under a positive limit and monotone time no account ever holds more live authorizations than that.
   */
  lemma {:induction false} QuotaHolds(caps: Caps, run: seq<Timed>, now: int)
    requires caps.transfers > 0 && Monotone(run, now)
    ensures WithinQuota(Exec(caps, run), caps.transfers, now)
  {
    if run == [] {
      forall a
        ensures LiveSet(EMPTY, a, now) == {}
      {
      }
    } else {
      var before, t := Exec(caps, run[..|run| - 1]), run[|run| - 1];
      QuotaHolds(caps, run[..|run| - 1], t.now);
      RunsArePaired(caps, run[..|run| - 1]);
      if t.op.AuthorizeOp? {
        AuthorizeKeepsQuota(
          before, caps.transfers, t.now, t.op.id, t.op.sender, t.op.receiver, t.op.account, t.op.ttl, t.op.token);
      } else {
        OtherStepsKeepQuota(before, caps, caps.transfers, t);
      }
      QuotaLater(Step(before, caps, t), caps.transfers, t.now, now);
    }
  }

  /** A pipe limit within the global cap that the transfer limit does not keep the account below. */
  predicate PipeLimitBites(caps: Caps) {
    0 < caps.pipes <= MAX_CONCURRENT_PIPES && !(0 < caps.transfers <= caps.pipes)
  }

  lemma PipeLimitUnreachable(caps: Caps, run: seq<Timed>, now: int, id: string, role: Role, device: string,
                             target: string, token: string)
    requires !PipeLimitBites(caps) && Monotone(run, now)
    ensures Validate(Exec(caps, run), id, role, device, target, token, caps.pipes, now).1 != Some(ErrAccountPipeLimit)
  {
    var s := Exec(caps, run);
    if Check(s, id, role, device, target, token, now).None? && id !in s.pipes && caps.pipes > 0 {
      var account := s.auths[id].account;
      if caps.pipes > MAX_CONCURRENT_PIPES {
        PipesBounded(caps, run);
        SubsetSize(PipeSet(s, account), s.pipes.Keys);
        assert |s.pipes| == |s.pipes.Keys|;
      } else {
        QuotaHolds(caps, run, now);
        RunsArePaired(caps, run);
        assert PipeSet(s, account) <= LiveSet(s, account, now) - {id};
        SubsetSize(PipeSet(s, account), LiveSet(s, account, now) - {id});
        assert id in LiveSet(s, account, now);
      }
    }
  }

  /** Re-authorizing a live session with its own pair is refused neither for concurrency nor as a conflict. */
  lemma ReauthorizeNotRefused(caps: Caps, run: seq<Timed>, now: int, id: string, ttl: int, token: string)
    requires caps.transfers > 0 && Monotone(run, now)
    requires id in Exec(caps, run).auths && Live(Exec(caps, run), id, now)
    ensures var s := Exec(caps, run);
            var a := s.auths[id];
            Authorize(s, id, a.sender, a.receiver, a.account, ttl, caps.transfers, Some(token), now).1 == Ok(token)
  {
    var s := Exec(caps, run);
    QuotaHolds(caps, run, now);
    assert id in LiveSet(s, s.auths[id].account, now);
  }

  // ----- a run into the pipe refusal -----

  function Id(i: nat): (id: string)
    ensures |id| == i
  {
    seq(i, _ => 's')
  }

  function Ids(n: nat): (ids: set<string>)
    ensures Id(n) !in ids && forall id :: id in ids ==> |id| < n
  {
    if n == 0 then {} else Ids(n - 1) + {Id(n - 1)}
  }

  lemma {:induction false} IdsSize(n: nat)
    ensures |Ids(n)| == n
  {
    if n == 0 {
    } else {
      IdsSize(n - 1);
    }
  }

  /** One account with `n` sessions, each authorized for an hour and connected. */
  ghost predicate Filled(s: RelayState, n: nat) {
    && s.pipes.Keys == Ids(n) && s.auths.Keys == Ids(n)
    && (forall id :: id in s.pipes ==> s.pipes[id] == Pipe("acct", "A", "B", 0))
    && (forall id :: id in s.auths ==> s.auths[id] == Auth("A", "B", "acct", "t", 3600))
  }

  function AuthorizeNext(n: nat): Timed {
    Timed(0, AuthorizeOp(Id(n), "A", "B", "acct", 3600, Some("t")))
  }

  function ConnectNext(n: nat): Timed {
    Timed(0, ConnectOp(Id(n), SenderRole, "A", "B", "t"))
  }

  function FillRun(n: nat): seq<Timed> {
    if n == 0 then [] else FillRun(n - 1) + [AuthorizeNext(n - 1)] + [ConnectNext(n - 1)]
  }

  lemma AuthorizeFills(s: RelayState, caps: Caps, n: nat)
    requires Filled(s, n) && (caps.transfers <= 0 || n < caps.transfers)
    ensures Step(s, caps, AuthorizeNext(n)) == s.(auths := s.auths[Id(n) := Auth("A", "B", "acct", "t", 3600)])
  {
    IdsSize(n);
    assert LiveSet(s, "acct", 0) - {Id(n)} == Ids(n);
  }

  /** What connecting one more session meets. */
  lemma ConnectMeets(s: RelayState, n: nat, maxPipes: nat)
    requires Filled(s, n) && maxPipes > 0
    ensures var s1 := s.(auths := s.auths[Id(n) := Auth("A", "B", "acct", "t", 3600)]);
            Validate(s1, Id(n), SenderRole, "A", "B", "t", maxPipes, 0) ==
            if n >= maxPipes then (s1, Some(ErrAccountPipeLimit))
            else if n >= MAX_CONCURRENT_PIPES then (s1, Some(ErrServerBusy))
            else (s1.(pipes := s1.pipes[Id(n) := Pipe("acct", "A", "B", 0)]), None)
  {
    IdsSize(n);
    var s1 := s.(auths := s.auths[Id(n) := Auth("A", "B", "acct", "t", 3600)]);
    assert PipeSet(s1, "acct") == Ids(n);
    assert |s1.pipes| == |s1.pipes.Keys|;
  }

  lemma FilledMore(s: RelayState, n: nat)
    requires Filled(s, n)
    ensures Filled(RelayState(s.pipes[Id(n) := Pipe("acct", "A", "B", 0)],
                              s.auths[Id(n) := Auth("A", "B", "acct", "t", 3600)]), n + 1)
  {
    assert Ids(n + 1) == Ids(n) + {Id(n)};
  }

  lemma FillOne(s: RelayState, caps: Caps, n: nat)
    requires PipeLimitBites(caps) && Filled(s, n) && n < caps.pipes
    ensures Filled(Step(Step(s, caps, AuthorizeNext(n)), caps, ConnectNext(n)), n + 1)
  {
    AuthorizeFills(s, caps, n);
    ConnectMeets(s, n, caps.pipes);
    FilledMore(s, n);
  }

  lemma ExecOne(caps: Caps, run: seq<Timed>, t: Timed)
    ensures Exec(caps, run + [t]) == Step(Exec(caps, run), caps, t)
    ensures Monotone(run, 0) && t.now == 0 ==> Monotone(run + [t], 0)
  {
    var longer := run + [t];
    assert longer[..|longer| - 1] == run;
  }

  lemma {:induction false} RunFills(caps: Caps, n: nat)
    requires PipeLimitBites(caps) && n <= caps.pipes
    ensures Filled(Exec(caps, FillRun(n)), n) && Monotone(FillRun(n), 0)
  {
    if n == 0 {
    } else {
      RunFills(caps, n - 1);
      var s := Exec(caps, FillRun(n - 1));
      ExecOne(caps, FillRun(n - 1), AuthorizeNext(n - 1));
      ExecOne(caps, FillRun(n - 1) + [AuthorizeNext(n - 1)], ConnectNext(n - 1));
      FillOne(s, caps, n - 1);
    }
  }

  lemma PipeLimitReachable(caps: Caps) returns (run: seq<Timed>)
    requires PipeLimitBites(caps)
    ensures Monotone(run, 0)
    ensures Validate(Exec(caps, run), Id(caps.pipes), SenderRole, "A", "B", "t", caps.pipes, 0).1 ==
            Some(ErrAccountPipeLimit)
  {
    var n: nat := caps.pipes;
    RunFills(caps, n);
    var s := Exec(caps, FillRun(n));
    AuthorizeFills(s, caps, n);
    ConnectMeets(s, n, caps.pipes);
    ExecOne(caps, FillRun(n), AuthorizeNext(n));
    run := FillRun(n) + [AuthorizeNext(n)];
  }

  /** The per-account pipe refusal can happen in some run. */
  ghost predicate PipeRefusalReachable(caps: Caps) {
    exists run: seq<Timed>, now: int, id: string, role: Role, device: string, target: string, token: string ::
      Monotone(run, now) && RefusedForPipes(caps, run, now, id, role, device, target, token)
  }

  predicate RefusedForPipes(caps: Caps, run: seq<Timed>, now: int, id: string, role: Role, device: string,
                            target: string, token: string) {
    Validate(Exec(caps, run), id, role, device, target, token, caps.pipes, now).1 == Some(ErrAccountPipeLimit)
  }

  /**
   It can happen exactly for a pipe limit within the global cap that no transfer limit of at most its size shields.
   */
  lemma PipeRefusalExactly(caps: Caps)
    ensures PipeRefusalReachable(caps) <==> PipeLimitBites(caps)
  {
    if PipeLimitBites(caps) {
      var run := PipeLimitReachable(caps);
      assert RefusedForPipes(caps, run, 0, Id(caps.pipes), SenderRole, "A", "B", "t");
    } else {
      forall run: seq<Timed>, now: int, id: string, role: Role, device: string, target: string, token: string
        | Monotone(run, now)
        ensures !RefusedForPipes(caps, run, now, id, role, device, target, token)
      {
        PipeLimitUnreachable(caps, run, now, id, role, device, target, token);
      }
    }
  }

  // ----- non-interference -----

  /** Nothing another account does by authorizing or tearing down touches an account's live entries or its pipes. */
  lemma NonInterference(s: RelayState, caps: Caps, t: Timed, account: string, id: string)
    requires Paired(s)
    requires t.op.AuthorizeOp? || t.op.TeardownOp?
    requires t.op.account != account
    requires id in LiveSet(s, account, t.now)
    ensures var s' := Step(s, caps, t);
            && id in s'.auths && s'.auths[id] == s.auths[id]
            && (id in s'.pipes <==> id in s.pipes)
            && (id in s.pipes ==> s'.pipes[id] == s.pipes[id])
  {
    if t.op.AuthorizeOp? {
      AuthorizeSpares(s, caps, t, id);
    } else {
      RemoveSpares(s, t.op.id, t.op.account, t.op.device, id);
    }
  }

  lemma AuthorizeSpares(s: RelayState, caps: Caps, t: Timed, id: string)
    requires t.op.AuthorizeOp? && id in s.auths && Live(s, id, t.now)
    requires t.op.id != id || !SamePair(s.auths[id], t.op.sender, t.op.receiver, t.op.account)
    ensures var s' := Step(s, caps, t);
            s'.pipes == s.pipes && id in s'.auths && s'.auths[id] == s.auths[id]
  {
  }

  lemma RemoveSpares(s: RelayState, target: string, account: string, device: string, id: string)
    requires Paired(s) && id in s.auths
    requires target != id || s.auths[id].account != account ||
             (device != s.auths[id].sender && device != s.auths[id].receiver)
    ensures var s' := Remove(s, target, account, device).0;
            && id in s'.auths && s'.auths[id] == s.auths[id]
            && (id in s'.pipes <==> id in s.pipes)
            && (id in s.pipes ==> s'.pipes[id] == s.pipes[id])
  {
  }

  lemma ConnectSpares(s: RelayState, target: string, role: Role, device: string, peer: string, tok: string,
                      maxPipes: int, now: int)
    ensures var s' := Validate(s, target, role, device, peer, tok, maxPipes, now).0;
            s'.auths == s.auths && s.pipes.Keys <= s'.pipes.Keys
  {
  }

  /** What a call did to a live entry, if it did anything. */
  predicate OwnDoing(s: RelayState, t: Timed, id: string)
    requires id in s.auths
  {
    var a := s.auths[id];
    || (t.op.TeardownOp? && t.op.id == id && t.op.account == a.account &&
        (t.op.device == a.sender || t.op.device == a.receiver))
    || (t.op.AuthorizeOp? && t.op.id == id && SamePair(a, t.op.sender, t.op.receiver, t.op.account))
    || (t.op.SweepOp? && id in IdleSet(s, t.op.timeout, t.now))
  }

  lemma SweepKeepsBusy(s: RelayState, timeout: int, now: int, id: string)
    requires id in s.auths && Live(s, id, now) && id !in IdleSet(s, timeout, now)
    ensures var s' := Sweep(s, timeout, now);
            && id in s'.auths && s'.auths[id] == s.auths[id] && Live(s', id, now)
            && (id in s.pipes ==> id in s'.pipes && s'.pipes[id] == s.pipes[id])
  {
    var idle := IdleSet(s, timeout, now);
    var s1 := RelayState(s.pipes - idle, s.auths - idle);
    assert id in s1.auths && Live(s1, id, now);
  }

  /** A sweep removes exactly the idle pipes with their authorizations and the authorizations that bind nothing. */
  lemma SweepIsExact(s: RelayState, timeout: int, now: int, id: string)
    ensures var s' := Sweep(s, timeout, now);
            var idle := id in s.pipes && now - s.pipes[id].lastActive > timeout;
            && (id in s'.pipes <==> id in s.pipes && !idle) && (id in s'.pipes ==> s'.pipes[id] == s.pipes[id])
            && (id in s'.auths <==> id in s.auths && !idle && Live(s, id, now))
            && (id in s'.auths ==> s'.auths[id] == s.auths[id])
  {
    var idle := IdleSet(s, timeout, now);
    var s1 := RelayState(s.pipes - idle, s.auths - idle);
    assert id in s1.auths ==> (Live(s1, id, now) <==> Live(s, id, now));
  }

  /**
   A live entry leaves the map or changes only by its own participants' teardown or re-authorization, or by a sweep
   of its idle pipe.
   */
  lemma LiveEntryStable(s: RelayState, caps: Caps, t: Timed, id: string)
    requires Paired(s) && id in s.auths && Live(s, id, t.now)
    requires !OwnDoing(s, t, id)
    ensures var s' := Step(s, caps, t);
            id in s'.auths && s'.auths[id] == s.auths[id] && Live(s', id, t.now)
  {
    match t.op
    case SweepOp(timeout) => SweepKeepsBusy(s, timeout, t.now, id);
    case AuthorizeOp(_, _, _, _, _, _) => AuthorizeSpares(s, caps, t, id);
    case ConnectOp(target, role, device, peer, tok) =>
      ConnectSpares(s, target, role, device, peer, tok, caps.pipes, t.now);
    case TouchOp(_) =>
    case TeardownOp(target, account, device) => RemoveSpares(s, target, account, device, id);
  }

  // ----- the in-place implementation -----

  /** Counting one more key of a scan. */
  lemma OneMore(all: set<string>, pending: set<string>, id: string)
    requires id in pending
    ensures |all - (pending - {id})| == |all - pending| + if id in all then 1 else 0
  {
    if id in all {
      assert all - (pending - {id}) == (all - pending) + {id};
    } else {
      assert all - (pending - {id}) == all - pending;
    }
  }

  /** The account's entries other than `exclude` that have not expired or have a pipe. */
  function Binding(auths: map<string, Auth>, withPipe: set<string>, account: string, exclude: string,
                   now: int): set<string> {
    set id | id in auths && id != exclude && auths[id].account == account &&
        (now < auths[id].expiresAt || id in withPipe)
  }

  method CountBinding(auths: map<string, Auth>, withPipe: set<string>, account: string, exclude: string, now: int)
    returns (count: nat)
    ensures count == |Binding(auths, withPipe, account, exclude, now)|
  {
    count := 0;
    var pending := auths.Keys;
    ghost var all := Binding(auths, withPipe, account, exclude, now);
    while pending != {}
      invariant pending <= auths.Keys
      invariant count == |all - pending|
      decreases pending
    {
      var id :| id in pending;
      OneMore(all, pending, id);
      pending := pending - {id};
      if id != exclude && auths[id].account == account {
        if now < auths[id].expiresAt || id in withPipe {
          count := count + 1;
        }
      }
    }
    assert all - pending == all;
  }

  class RelayPipe {
    const sessionId: string
    const account: string
    const fromDevice: string
    const toDevice: string
    var lastActive: int
    var closed: bool

    constructor (id: string, acct: string, sender: string, receiver: string, now: int)
      ensures sessionId == id && account == acct && fromDevice == sender && toDevice == receiver
      ensures lastActive == now && !closed
    {
      sessionId, account, fromDevice, toDevice := id, acct, sender, receiver;
      lastActive, closed := now, false;
    }

    method Close()
      modifies this`closed
      ensures closed
    {
      if !closed {
        closed := true;
      }
    }

    function View(): Pipe
      reads this
    {
      Pipe(account, fromDevice, toDevice, lastActive)
    }
  }

  function Owned(pipes: map<string, RelayPipe>, account: string): set<string> {
    set id | id in pipes && pipes[id].account == account
  }

  method CountOwned(pipes: map<string, RelayPipe>, account: string) returns (count: nat)
    ensures count == |Owned(pipes, account)|
  {
    count := 0;
    var pending := pipes.Keys;
    ghost var all := Owned(pipes, account);
    while pending != {}
      invariant pending <= pipes.Keys
      invariant count == |all - pending|
      decreases pending
    {
      var id :| id in pending;
      OneMore(all, pending, id);
      pending := pending - {id};
      if pipes[id].account == account {
        count := count + 1;
      }
    }
    assert all - pending == all;
  }

  class RelayManager {
    var pipes: map<string, RelayPipe>
    var authSessions: map<string, Auth>
    const maxPipesPerAccount: int
    ghost var created: set<RelayPipe>

    /** Over every pipe ever made: exactly the removed ones are closed; and pipes and authorizations are paired. */
    ghost predicate Valid()
      reads this, created
    {
      && (forall id :: id in pipes ==> pipes[id] in created && pipes[id].sessionId == id)
      && (forall p :: p in created ==> (p.closed <==> !(p.sessionId in pipes && pipes[p.sessionId] == p)))
      && (forall id :: id in pipes ==>
            && id in authSessions
            && SamePair(authSessions[id], pipes[id].fromDevice, pipes[id].toDevice, pipes[id].account))
    }

    ghost function View(): RelayState
      reads this, created
      requires forall id :: id in pipes ==> pipes[id] in created
    {
      RelayState(map id | id in pipes :: pipes[id].View(), authSessions)
    }

    constructor (maxPipes: int)
      ensures Valid() && View() == EMPTY && maxPipesPerAccount == maxPipes && created == {}
    {
      pipes, authSessions, maxPipesPerAccount, created := map[], map[], maxPipes, {};
    }

    predicate AuthLive(id: string, auth: Auth, now: int)
      reads this
    {
      now < auth.expiresAt || id in pipes
    }

    method CountAuthorized(account: string, exclude: string, now: int) returns (count: nat)
      requires Valid()
      ensures count == InFlight(View(), account, exclude, now)
    {
      count := CountBinding(authSessions, pipes.Keys, account, exclude, now);
      assert Binding(authSessions, pipes.Keys, account, exclude, now) == LiveSet(View(), account, now) - {exclude};
    }

    /** A live entry of this session binds another pair or account. */
    method Conflicts(id: string, sender: string, receiver: string, account: string, now: int) returns (conflict: bool)
      requires Valid()
      ensures conflict <==>
              id in View().auths && Live(View(), id, now) && !SamePair(View().auths[id], sender, receiver, account)
      ensures !conflict && id in pipes ==> SamePair(authSessions[id], sender, receiver, account)
    {
      if id in authSessions {
        var existing := authSessions[id];
        if AuthLive(id, existing, now) {
          return existing.account != account || existing.sender != sender || existing.receiver != receiver;
        }
      }
      return false;
    }

    /** The three refusals, in order; none leaves the way to a grant. */
    method Refusal(id: string, sender: string, receiver: string, account: string, ttl: int, maxConcurrent: int,
                   random: Option<string>, now: int)
      returns (refused: Option<RelayError>, inFlight: nat)
      requires Valid()
      ensures refused.None? ==> random.Some? && (id in pipes ==> SamePair(authSessions[id], sender, receiver, account))
      ensures var s := View();
              Authorize(s, id, sender, receiver, account, ttl, maxConcurrent, random, now) ==
              match refused
              case Some(e) => (s, Err(e), inFlight)
              case None =>
                var auth := Auth(sender, receiver, account, random.value, now + ttl);
                (s.(auths := s.auths[id := auth]), Ok(random.value), inFlight)
    {
      var conflict := Conflicts(id, sender, receiver, account, now);
      if conflict {
        return Some(ErrSessionIDConflict), 0;
      }
      inFlight := CountAuthorized(account, id, now);
      refused :=
        if maxConcurrent > 0 && inFlight >= maxConcurrent then Some(ErrConcurrencyLimit)
        else if random.None? then Some(ErrRandom)
        else None;
    }

    method AuthorizeSessionIfUnderLimit(id: string, sender: string, receiver: string, account: string,
                                        ttl: int, maxConcurrent: int, random: Option<string>, now: int)
      returns (r: Result<string, RelayError>, inFlight: nat)
      requires Valid()
      modifies this`authSessions
      ensures Valid()
      ensures (View(), r, inFlight) ==
              Authorize(old(View()), id, sender, receiver, account, ttl, maxConcurrent, random, now)
    {
      var refused;
      refused, inFlight := Refusal(id, sender, receiver, account, ttl, maxConcurrent, random, now);
      if refused.Some? {
        return Err(refused.value), inFlight;
      }
      Grant(id, Auth(sender, receiver, account, random.value, now + ttl));
      r := Ok(random.value);
    }

    /** Stores an authorization over one that binds nothing or has the same pair. */
    method Grant(id: string, auth: Auth)
      requires Valid()
      requires id in pipes ==> SamePair(authSessions[id], auth.sender, auth.receiver, auth.account)
      modifies this`authSessions
      ensures Valid()
      ensures View() == old(View()).(auths := old(View()).auths[id := auth])
    {
      authSessions := authSessions[id := auth];
      assert View().pipes == old(View()).pipes;
    }

    method CheckAuthorization(id: string, role: Role, device: string, target: string, token: string, now: int)
      returns (err: Option<RelayError>)
      requires Valid()
      ensures err == Check(View(), id, role, device, target, token, now)
    {
      if id !in authSessions {
        return Some(ErrUnauthorized);
      }
      var auth := authSessions[id];
      if !AuthLive(id, auth, now) || auth.token != token {
        return Some(ErrUnauthorized);
      }
      if role == SenderRole {
        if device != auth.sender || (target != "" && target != auth.receiver) {
          return Some(ErrDeviceMismatch);
        }
      } else if role == ReceiverRole {
        if device != auth.receiver || (target != "" && target != auth.sender) {
          return Some(ErrDeviceMismatch);
        }
      } else {
        return Some(ErrUnauthorized);
      }
      return None;
    }

    method CountPipes(account: string) returns (count: nat)
      requires Valid()
      ensures count == |PipeSet(View(), account)|
    {
      count := CountOwned(pipes, account);
      assert Owned(pipes, account) == PipeSet(View(), account);
    }

    /** The refusals in order; an existing pipe is found before the caps are looked at. */
    method RefuseConnect(id: string, role: Role, device: string, target: string, token: string, now: int)
      returns (err: Option<RelayError>)
      requires Valid()
      ensures err.None? ==> id in authSessions
      ensures var s := View();
              Validate(s, id, role, device, target, token, maxPipesPerAccount, now) ==
              if err.Some? then (s, err)
              else if id in s.pipes then (Touch(s, id, now), None)
              else
                var auth := s.auths[id];
                (s.(pipes := s.pipes[id := Pipe(auth.account, auth.sender, auth.receiver, now)]), None)
    {
      err := CheckAuthorization(id, role, device, target, token, now);
      if err.Some? {
        return;
      }
      var auth := authSessions[id];
      if id in pipes {
        if pipes[id].fromDevice != auth.sender || pipes[id].toDevice != auth.receiver {
          return Some(ErrUnauthorized);
        }
        return None;
      }
      err := CheckRoom(auth.account);
    }

    method ValidateAndGetOrCreatePipe(id: string, role: Role, device: string, target: string, token: string, now: int)
      returns (pipe: Option<RelayPipe>, err: Option<RelayError>)
      requires Valid()
      modifies this`pipes, this`created, created
      ensures Valid() && fresh(created - old(created)) && old(created) <= created
      ensures (View(), err) == Validate(old(View()), id, role, device, target, token, maxPipesPerAccount, now)
      ensures err.None? <==> pipe.Some?
      ensures pipe.Some? ==> id in pipes && pipes[id] == pipe.value && !pipe.value.closed
    {
      err := RefuseConnect(id, role, device, target, token, now);
      if err.Some? {
        return None, err;
      }
      if id in pipes {
        TouchPipe(id, now);
      } else {
        AddPipe(id, authSessions[id], now);
      }
      pipe := Some(pipes[id]);
    }

    /** The two caps on pipes. */
    method CheckRoom(acct: string) returns (err: Option<RelayError>)
      requires Valid()
      ensures var full := maxPipesPerAccount > 0 && |PipeSet(View(), acct)| >= maxPipesPerAccount;
              err == if full then Some(ErrAccountPipeLimit)
                     else if |View().pipes| >= MAX_CONCURRENT_PIPES then Some(ErrServerBusy)
                     else None
    {
      if maxPipesPerAccount > 0 {
        var held := CountPipes(acct);
        if held >= maxPipesPerAccount {
          return Some(ErrAccountPipeLimit);
        }
      }
      SamePipeCount();
      return if |pipes| >= MAX_CONCURRENT_PIPES then Some(ErrServerBusy) else None;
    }

    lemma SamePipeCount()
      requires Valid()
      ensures |View().pipes| == |pipes|
    {
      assert View().pipes.Keys == pipes.Keys;
      assert |View().pipes| == |View().pipes.Keys| && |pipes| == |pipes.Keys|;
    }

    method TouchPipe(id: string, now: int)
      requires Valid() && id in pipes
      modifies created
      ensures Valid()
      ensures View() == Touch(old(View()), id, now)
    {
      pipes[id].lastActive := now;
      assert View().pipes == old(View()).pipes[id := pipes[id].View()];
    }

    method AddPipe(id: string, auth: Auth, now: int)
      requires Valid() && id !in pipes && id in authSessions && authSessions[id] == auth
      modifies this`pipes, this`created
      ensures Valid() && id in pipes && created == old(created) + {pipes[id]} && fresh(pipes[id]) && !pipes[id].closed
      ensures var p := Pipe(auth.account, auth.sender, auth.receiver, now);
              View() == old(View()).(pipes := old(View()).pipes[id := p])
    {
      var p := new RelayPipe(id, auth.account, auth.sender, auth.receiver, now);
      pipes := pipes[id := p];
      created := created + {p};
      assert View().pipes == old(View()).pipes[id := p.View()];
    }

    /** Closes one pipe and takes it out of the map. */
    method Drop(id: string, p: RelayPipe)
      requires Valid() && id in pipes && pipes[id] == p
      modifies this`pipes, this`authSessions, p`closed
      ensures pipes == old(pipes) - {id} && authSessions == old(authSessions) - {id}
      ensures Valid()
    {
      p.Close();
      pipes := pipes - {id};
      authSessions := authSessions - {id};
    }

    method RemovePipeForSession(id: string, account: string, device: string) returns (r: Teardown)
      requires Valid()
      modifies this`pipes, this`authSessions, created
      ensures Valid()
      ensures (View(), r) == Remove(old(View()), id, account, device)
      ensures old(id in pipes) && r == TeardownOK ==> old(pipes[id]).closed
    {
      if id !in authSessions {
        if id in pipes {
          assert false;  // a pipe without authorization: ruled out by the pairing
        }
        return TeardownNotFound;
      }
      var auth := authSessions[id];
      if auth.account != account {
        return TeardownDenied(auth.account);
      }
      if device != auth.sender && device != auth.receiver {
        return TeardownDenied(auth.account);
      }
      if id in pipes {
        Drop(id, pipes[id]);
      } else {
        authSessions := authSessions - {id};
      }
      assert View().pipes == old(View()).pipes - {id};
      return TeardownOK;
    }

    method SweepIdlePipes(timeout: int, now: int) returns (swept: seq<string>)
      requires Valid()
      modifies this`pipes, this`authSessions, created
      ensures Valid()
      ensures View() == Sweep(old(View()), timeout, now)
      ensures forall id :: id in swept <==> id in IdleSet(old(View()), timeout, now)
      ensures forall id :: id in swept ==> old(pipes[id]).closed
    {
      swept := SweepPipes(timeout, now);
      SweepAuths(now);
    }

    /** The sweep's first loop, which deletes from the map it goes over. */
    method DropIdle(timeout: int, now: int, ghost idle: set<string>) returns (swept: seq<string>)
      requires Valid()
      requires idle == set id | id in pipes && now - pipes[id].lastActive > timeout
      modifies this`pipes, this`authSessions, created
      ensures Valid()
      ensures pipes == old(pipes) - idle && authSessions == old(authSessions) - idle
      ensures forall p :: p in created ==> p.lastActive == old(p.lastActive)
      ensures forall id :: id in swept <==> id in idle
    {
      swept := [];
      var pending := pipes.Keys;
      ghost var gone: set<string> := {};
      while pending != {}
        invariant Valid()
        invariant gone == idle - pending
        invariant pending <= pipes.Keys
        invariant pipes == old(pipes) - gone && authSessions == old(authSessions) - gone
        invariant forall p :: p in created ==> p.lastActive == old(p.lastActive)
        invariant forall id :: id in swept <==> id in gone
        decreases pending
      {
        var id :| id in pending;
        pending := pending - {id};
        assert pipes[id] == old(pipes)[id];
        if now - pipes[id].lastActive > timeout {
          Drop(id, pipes[id]);
          swept := swept + [id];
          gone := gone + {id};
        }
      }
      assert gone == idle;
    }

    method SweepPipes(timeout: int, now: int) returns (swept: seq<string>)
      requires Valid()
      modifies this`pipes, this`authSessions, created
      ensures Valid()
      ensures var idle := IdleSet(old(View()), timeout, now);
              && View() == RelayState(old(View()).pipes - idle, old(View()).auths - idle)
              && (forall id :: id in swept <==> id in idle)
              && forall id :: id in swept ==> id in old(pipes) && old(pipes[id]).closed
    {
      ghost var idle := IdleSet(View(), timeout, now);
      swept := DropIdle(timeout, now, idle);
      RemovedAreClosed(old(pipes), idle);
      assert View().pipes == old(View()).pipes - idle;
    }

    /** What Valid says of pipes that were in the map and no longer are. */
    lemma RemovedAreClosed(before: map<string, RelayPipe>, gone: set<string>)
      requires Valid() && pipes == before - gone
      requires forall id :: id in before ==> before[id] in created && before[id].sessionId == id
      ensures forall id :: id in gone && id in before ==> before[id].closed
    {
    }

    method SweepAuths(now: int)
      requires Valid()
      modifies this`authSessions
      ensures Valid()
      ensures var s := old(View());
              View() == s.(auths := map id | id in s.auths && Live(s, id, now) :: s.auths[id])
    {
      var pending := authSessions.Keys;
      ghost var s := View();
      while pending != {}
        invariant pending <= authSessions.Keys <= s.auths.Keys
        invariant View().pipes == s.pipes
        invariant forall id :: id in authSessions ==> authSessions[id] == s.auths[id]
        invariant forall id :: id in s.auths ==> (id in authSessions <==> id in pending || Live(s, id, now))
        decreases pending
      {
        var id :| id in pending;
        pending := pending - {id};
        if !(now < authSessions[id].expiresAt || id in pipes) {
          authSessions := authSessions - {id};
        }
      }
    }
  }
}
