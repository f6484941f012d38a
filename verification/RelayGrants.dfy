/** Over runs of the relay manager: who is let in, and what each call leaves behind. */
module RelayGrants {
  import opened Wrappers
  import opened Relay

  // ----- the last grant decides -----

  /** What the last successful authorization of the session carried. */
  function LastGrant(caps: Caps, run: seq<Timed>, id: string): Option<Auth> {
    if run == [] then None
    else
      var before, t := Exec(caps, run[..|run| - 1]), run[|run| - 1];
      if t.op.AuthorizeOp? && t.op.id == id && Granted(before, caps, t) then
        Some(Auth(t.op.sender, t.op.receiver, t.op.account, t.op.token.value, t.now + t.op.ttl))
      else
        LastGrant(caps, run[..|run| - 1], id)
  }

  /** The caller got the token. */
  predicate Granted(s: RelayState, caps: Caps, t: Timed)
    requires t.op.AuthorizeOp?
  {
    var op := t.op;
    var r := Authorize(s, op.id, op.sender, op.receiver, op.account, op.ttl, caps.transfers, op.token, t.now).1;
    op.token.Some? && r == Ok(op.token.value)
  }

  /** The grant is for this token and this device in this role; an empty peer is not compared. */
  predicate Entitles(g: Auth, role: Role, device: string, target: string, token: string) {
    && token == g.token
    && match role
       case SenderRole => device == g.sender && (target == "" || target == g.receiver)
       case ReceiverRole => device == g.receiver && (target == "" || target == g.sender)
       case OtherRole => false
  }

  lemma StepKeepsOthers(s: RelayState, caps: Caps, t: Timed, id: string)
    requires !(t.op.AuthorizeOp? && t.op.id == id && Granted(s, caps, t))
    ensures var s' := Step(s, caps, t); id in s'.auths ==> id in s.auths && s'.auths[id] == s.auths[id]
  {
    match t.op
    case AuthorizeOp(_, _, _, _, _, _) => RefusalChangesNothing(s, caps, t);
    case SweepOp(timeout) => SweepIsExact(s, timeout, t.now, id);
    case _ =>
  }

  lemma RefusalChangesNothing(s: RelayState, caps: Caps, t: Timed)
    requires t.op.AuthorizeOp?
    ensures !Granted(s, caps, t) ==> Step(s, caps, t) == s
    ensures Granted(s, caps, t) ==>
              var op := t.op;
              Step(s, caps, t) ==
              s.(auths := s.auths[op.id := Auth(op.sender, op.receiver, op.account, op.token.value, t.now + op.ttl)])
  {
  }

  /** An entry is what the last grant of its session carried, lifetime included. */
  lemma {:induction false} EntryIsLastGrant(caps: Caps, run: seq<Timed>, id: string)
    ensures id in Exec(caps, run).auths ==> LastGrant(caps, run, id) == Some(Exec(caps, run).auths[id])
  {
    if run == [] {
    } else {
      var before, t := Exec(caps, run[..|run| - 1]), run[|run| - 1];
      EntryIsLastGrant(caps, run[..|run| - 1], id);
      if t.op.AuthorizeOp? && t.op.id == id && Granted(before, caps, t) {
        RefusalChangesNothing(before, caps, t);
      } else {
        StepKeepsOthers(before, caps, t, id);
      }
    }
  }

  /** A dial is admitted exactly if the session's entry still binds and its last grant entitles the caller. */
  lemma AdmittedExactly(caps: Caps, run: seq<Timed>, now: int, id: string, role: Role, device: string, target: string,
                        token: string)
    ensures var s := Exec(caps, run);
            Check(s, id, role, device, target, token, now) == None <==>
            && id in s.auths && Live(s, id, now)
            && LastGrant(caps, run, id).Some? && Entitles(LastGrant(caps, run, id).value, role, device, target, token)
  {
    EntryIsLastGrant(caps, run, id);
  }

  /** Why a dial is refused: nothing that binds or a wrong token, or a wrong device or peer for the role. */
  lemma RefusalsExactly(caps: Caps, run: seq<Timed>, now: int, id: string, role: Role, device: string, target: string,
                        token: string)
    requires Check(Exec(caps, run), id, role, device, target, token, now).Some?
    ensures var s := Exec(caps, run);
            var g := LastGrant(caps, run, id);
            Check(s, id, role, device, target, token, now) ==
            if id in s.auths && Live(s, id, now) && g.Some? && g.value.token == token && role != OtherRole
            then Some(ErrDeviceMismatch) else Some(ErrUnauthorized)
  {
    EntryIsLastGrant(caps, run, id);
  }

  /** Only an admitted dial gets a pipe, stamped now and for the grant's pair, and nothing else changes. */
  lemma PipeOnlyForEntitled(caps: Caps, run: seq<Timed>, now: int, id: string, role: Role, device: string,
                            target: string, token: string)
    ensures var s := Exec(caps, run);
            var (s', err) := Validate(s, id, role, device, target, token, caps.pipes, now);
            && s'.auths == s.auths
            && (err.Some? ==> s' == s)
            && (err.None? ==>
                  && LastGrant(caps, run, id).Some?
                  && var g := LastGrant(caps, run, id).value;
                     && Entitles(g, role, device, target, token)
                     && s' == s.(pipes := s.pipes[id := Pipe(g.account, g.sender, g.receiver, now)]))
  {
    EntryIsLastGrant(caps, run, id);
    RunsArePaired(caps, run);
  }

  /** An admitted dial is turned away exactly if it needs a new pipe and its account or the relay has too many. */
  lemma AdmittedIsConnected(caps: Caps, run: seq<Timed>, now: int, id: string, role: Role, device: string,
                            target: string, token: string)
    requires Check(Exec(caps, run), id, role, device, target, token, now) == None
    ensures var s := Exec(caps, run);
            var err := Validate(s, id, role, device, target, token, caps.pipes, now).1;
            var own := set x | x in s.pipes && x in s.auths && s.auths[x].account == s.auths[id].account;
            && (err == Some(ErrAccountPipeLimit) <==> id !in s.pipes && 0 < caps.pipes <= |own|)
            && (err == Some(ErrServerBusy) <==>
                  id !in s.pipes && !(0 < caps.pipes <= |own|) && |s.pipes| >= 200)
            && (err.Some? ==> err.value == ErrAccountPipeLimit || err.value == ErrServerBusy)
  {
    RunsArePaired(caps, run);
    var s := Exec(caps, run);
    var own := set x | x in s.pipes && x in s.auths && s.auths[x].account == s.auths[id].account;
    assert own == PipeSet(s, s.auths[id].account);
  }

  /** A pipe that connected or carried data at `now` outlives every sweep until its timeout has passed since. */
  lemma ActivityKeepsPipe(s: RelayState, id: string, now: int, timeout: int, later: int)
    requires id in s.pipes && id in s.auths && later - now <= timeout
    ensures var s' := Sweep(Touch(s, id, now), timeout, later); id in s'.pipes && id in s'.auths
  {
    var t := Touch(s, id, now);
    SweepIsExact(t, timeout, later, id);
  }

  // ----- what a refused or granted call leaves behind -----

  /** Which refusal an authorization meets: a live entry of another pair, then the limit, then the random source. */
  lemma AuthorizeOutcome(s: RelayState, id: string, sender: string, receiver: string, account: string, ttl: int,
                         limit: int, token: Option<string>, now: int)
    ensures var (s', r, inFlight) := Authorize(s, id, sender, receiver, account, ttl, limit, token, now);
            var others := set x | x in s.auths && x != id && s.auths[x].account == account &&
                                  (x in s.pipes || now < s.auths[x].expiresAt);
            && (r == Err(ErrSessionIDConflict) <==>
                  && id in s.auths && (id in s.pipes || now < s.auths[id].expiresAt)
                  && (s.auths[id].account, s.auths[id].sender, s.auths[id].receiver) != (account, sender, receiver))
            && (r.Ok? ==> limit > 0 ==> |others| < limit)
            && (r == Err(ErrConcurrencyLimit) ==> 0 < limit <= |others|)
            && (r == Err(ErrRandom) ==> token == None)
            && (r.Ok? || r.error in {ErrSessionIDConflict, ErrConcurrencyLimit, ErrRandom})
            && (r.Err? ==> s' == s)
            && inFlight == (if r == Err(ErrSessionIDConflict) then 0 else |others|)
  {
    var others := set x | x in s.auths && x != id && s.auths[x].account == account &&
                          (x in s.pipes || now < s.auths[x].expiresAt);
    assert others == LiveSet(s, account, now) - {id};
  }

  /** A teardown that succeeds takes exactly this session away, one that does not takes nothing. */
  lemma TeardownIsExact(caps: Caps, run: seq<Timed>, id: string, account: string, device: string, x: string)
    ensures var s := Exec(caps, run);
            var (s', r) := Remove(s, id, account, device);
            && (r == TeardownOK ==> id !in s'.pipes && id !in s'.auths)
            && (r != TeardownOK ==> s' == s)
            && (x != id ==>
                  && (x in s'.pipes <==> x in s.pipes) && (x in s.pipes ==> s'.pipes[x] == s.pipes[x])
                  && (x in s'.auths <==> x in s.auths) && (x in s.auths ==> s'.auths[x] == s.auths[x]))
  {
    RunsArePaired(caps, run);
  }
}
