/**
 What a client must still hold of a session, what a delivered failure ends, and who alone the data plane lets in.
 */
module HandshakeEntries {
  import opened Wrappers
  import R = Relay
  import opened Handshake

  // ----- entries stay until they are used or released -----

  /** A delivered failure or refusal, or a failed key derivation, takes the session from the device it came to. */
  function ReleasedIn(cfg: Config, w: World, step: Step): set<(string, string)>
    requires CanStep(cfg, w, step)
  {
    match step
    case ReceiveFailure(i) => {(w.down[i].to, w.down[i].sid)}
    case ReceiveAnswer(i, keyOk) => if !w.down[i].accepted || !keyOk then {(w.down[i].to, w.down[i].sid)} else {}
    case _ => {}
  }

  /** The devices and sessions released over a run. */
  function Released(cfg: Config, start: World, run: seq<Step>): set<(string, string)> {
    if run == [] then {}
    else
      var earlier, step := run[..|run| - 1], run[|run| - 1];
      var before := Exec(cfg, start, earlier);
      Released(cfg, start, earlier) + if CanStep(cfg, before, step) then ReleasedIn(cfg, before, step) else {}
  }

  predicate SenderHolds(w: World, released: set<(string, string)>, sid: string)
    requires sid in w.origin
  {
    var d := w.origin[sid].0;
    (d, sid) in released || (d in w.clients && sid in w.clients[d].outbound)
  }

  predicate ReceiverHolds(w: World, released: set<(string, string)>, sid: string)
    requires sid in w.origin
  {
    var (sender, d) := w.origin[sid];
    (d, sid) in released ||
    (d in w.clients && sid in w.clients[d].inbound && w.clients[d].inbound[sid] == sender)
  }

  /** By where the session's offer is: the entries its two clients need for the rest of the handshake. */
  ghost predicate Holds(w: World, released: set<(string, string)>, sid: string) {
    match PlaceOf(w, sid)
    case OfferUp => sid in w.origin && SenderHolds(w, released, sid)
    case OfferDown => sid in w.origin && SenderHolds(w, released, sid)
    case Waiting(d) =>
      && sid in w.origin && SenderHolds(w, released, sid)
      && d == w.origin[sid].1 && d in w.clients
      && sid in w.clients[d].confirm && w.clients[d].confirm[sid] == w.origin[sid].0
    case AcceptUp => sid in w.origin && SenderHolds(w, released, sid) && ReceiverHolds(w, released, sid)
    case Granted =>
      && sid in w.origin
      && (SenderHolds(w, released, sid) || Dials(w.dials, R.SenderRole, sid) >= 1)
      && (ReceiverHolds(w, released, sid) || Dials(w.dials, R.ReceiverRole, sid) >= 1)
    case Over => true
  }

  ghost predicate AllHeld(w: World, released: set<(string, string)>) {
    forall sid :: Holds(w, released, sid)
  }

  lemma StepHolds(cfg: Config, w: World, released: set<(string, string)>, step: Step, sid: string)
    requires Inv(cfg, w) && Holds(w, released, sid) && CanStep(cfg, w, step)
    ensures Holds(Next(cfg, w, step), released + ReleasedIn(cfg, w, step), sid)
  {
    match step
    case Dispatch(device, to, x) => DispatchHolds(cfg, w, released, device, to, x, sid);
    case ServeOffer(i, withinLimits) => ServeOfferHolds(cfg, w, released, i, withinLimits, sid);
    case ServeAnswerAt(i, random) => ServeAnswerHolds(cfg, w, released, i, random, sid);
    case ReceiveOffer(i, decision) => ReceiveOfferHolds(cfg, w, released, i, decision, sid);
    case Respond(device, x, accept) => RespondHolds(cfg, w, released, device, x, accept, sid);
    case ReceiveAnswer(i, keyOk) => ReceiveAnswerHolds(cfg, w, released, i, keyOk, sid);
    case ReceiveFailure(i) => ReceiveFailureHolds(cfg, w, released, i, sid);
    case LoseUp(_) => QuietHolds(cfg, w, released, step, sid);
    case LoseDown(_) => QuietHolds(cfg, w, released, step, sid);
    case PeerFails(_, _) => QuietHolds(cfg, w, released, step, sid);
    case Advance(_) => QuietHolds(cfg, w, released, step, sid);
    case OnRelay(_) => QuietHolds(cfg, w, released, step, sid);
  }

  lemma QuietHolds(cfg: Config, w: World, released: set<(string, string)>, step: Step, sid: string)
    requires Holds(w, released, sid) && CanStep(cfg, w, step)
    requires step.LoseUp? || step.LoseDown? || step.PeerFails? || step.Advance? || step.OnRelay?
    ensures Holds(Next(cfg, w, step), released, sid) && ReleasedIn(cfg, w, step) == {}
  {
    var w' := Next(cfg, w, step);
    assert w'.clients == w.clients && w'.dials == w.dials && w'.origin == w.origin;
    assert PlaceOf(w', sid) == PlaceOf(w, sid) || PlaceOf(w', sid) == Over;
  }

  lemma StepKeepsHeld(cfg: Config, w: World, released: set<(string, string)>, step: Step)
    requires Inv(cfg, w) && AllHeld(w, released) && CanStep(cfg, w, step)
    ensures AllHeld(Next(cfg, w, step), released + ReleasedIn(cfg, w, step))
  {
    forall sid
      ensures Holds(Next(cfg, w, step), released + ReleasedIn(cfg, w, step), sid)
    {
      assert Holds(w, released, sid);
      StepHolds(cfg, w, released, step, sid);
    }
  }

  lemma DispatchHolds(cfg: Config, w: World, released: set<(string, string)>, device: string, to: string, x: string,
                      sid: string)
    requires Inv(cfg, w) && Holds(w, released, sid) && device in w.clients && x !in w.origin
    ensures Holds(DoDispatch(w, device, to, x), released, sid)
  {
    assert OneToken(w, sid);
  }

  lemma ServeOfferHolds(cfg: Config, w: World, released: set<(string, string)>, i: nat, withinLimits: bool, sid: string)
    requires Inv(cfg, w) && Holds(w, released, sid) && i < |w.up| && w.up[i].OfferMsg?
    ensures Holds(DoServeOffer(w, i, withinLimits), released, sid)
  {
    HasToken(w.up, i);
    assert OneToken(w, w.up[i].sid);
  }

  lemma OfferIsHonest(cfg: Config, w: World, m: Msg)
    requires Inv(cfg, w) && (m in w.up || m in w.down)
    ensures MsgHonest(w, m)
  {
  }

  lemma ServeAnswerHolds(cfg: Config, w: World, released: set<(string, string)>, i: nat, random: Option<string>,
                         sid: string)
    requires Inv(cfg, w) && Holds(w, released, sid) && i < |w.up| && w.up[i].AnswerMsg?
    ensures Holds(DoServeAnswer(cfg, w, i, random), released, sid)
  {
    var m := w.up[i];
    OfferIsHonest(cfg, w, m);
    HasToken(w.up, i);
    assert OneToken(w, m.sid);
  }

  lemma ReceiveOfferHolds(cfg: Config, w: World, released: set<(string, string)>, i: nat, decision: Decision,
                          sid: string)
    requires Inv(cfg, w) && Holds(w, released, sid)
    requires i < |w.down| && w.down[i].OfferMsg? && w.down[i].to in w.clients
    ensures Holds(DoReceiveOffer(w, i, decision), released, sid)
  {
    var m := w.down[i];
    OfferIsHonest(cfg, w, m);
    HasToken(w.down, i);
    assert OneToken(w, m.sid);
  }

  lemma RespondHolds(cfg: Config, w: World, released: set<(string, string)>, device: string, x: string, accept: bool,
                     sid: string)
    requires Inv(cfg, w) && Holds(w, released, sid) && device in w.clients && x in w.clients[device].confirm
    ensures Holds(DoRespond(w, device, x, accept), released, sid)
  {
    assert ClientHonest(w, device, w.clients[device]) && OneToken(w, x);
  }

  lemma ReceiveAnswerHolds(cfg: Config, w: World, released: set<(string, string)>, i: nat, keyOk: bool, sid: string)
    requires Inv(cfg, w) && Holds(w, released, sid) && CanStep(cfg, w, ReceiveAnswer(i, keyOk))
    ensures Holds(DoReceiveAnswer(w, i, keyOk), released + ReleasedIn(cfg, w, ReceiveAnswer(i, keyOk)), sid)
  {
    var m := w.down[i];
    OfferIsHonest(cfg, w, m);
    if m.sid == sid {
      AnswerHolds(cfg, w, released, i, keyOk);
    } else {
      OtherAnswerHolds(cfg, w, released, i, keyOk, sid);
    }
  }

  lemma AnswerDials(w: World, i: nat, keyOk: bool, sid: string)
    requires i < |w.down| && w.down[i].AnswerMsg? && w.down[i].to in w.clients
    ensures var dial := OnAnswer(w.clients[w.down[i].to], w.down[i], keyOk).1;
            var dials := DoReceiveAnswer(w, i, keyOk).dials;
            && Dials(dials, R.SenderRole, sid) ==
               Dials(w.dials, R.SenderRole, sid) + Count(dial.Some? && IsDial(dial.value, R.SenderRole, sid))
            && Dials(dials, R.ReceiverRole, sid) ==
               Dials(w.dials, R.ReceiverRole, sid) + Count(dial.Some? && IsDial(dial.value, R.ReceiverRole, sid))
  {
    var dial := OnAnswer(w.clients[w.down[i].to], w.down[i], keyOk).1;
    if dial.Some? {
      DialsAppend(w.dials, dial.value, R.SenderRole, sid);
      DialsAppend(w.dials, dial.value, R.ReceiverRole, sid);
    }
  }

  lemma AnswerHolds(cfg: Config, w: World, released: set<(string, string)>, i: nat, keyOk: bool)
    requires Inv(cfg, w) && CanStep(cfg, w, ReceiveAnswer(i, keyOk)) && Holds(w, released, w.down[i].sid)
    requires MsgHonest(w, w.down[i])
    ensures Holds(DoReceiveAnswer(w, i, keyOk), released + ReleasedIn(cfg, w, ReceiveAnswer(i, keyOk)), w.down[i].sid)
  {
    assert OneToken(w, w.down[i].sid);
    if w.down[i].accepted {
      TokenAnswerHolds(w, released, i, keyOk);
    }
  }

  lemma TokenAnswerHolds(w: World, released: set<(string, string)>, i: nat, keyOk: bool)
    requires i < |w.down| && w.down[i].AnswerMsg? && w.down[i].accepted && w.down[i].to in w.clients
    requires Holds(w, released, w.down[i].sid) && OneToken(w, w.down[i].sid)
    requires w.down[i].token.Some? ==> w.down[i].sid in w.granted
    ensures Holds(DoReceiveAnswer(w, i, keyOk), released + if keyOk then {} else {(w.down[i].to, w.down[i].sid)},
                  w.down[i].sid)
  {
    HasToken(w.down, i);
    AnswerDials(w, i, keyOk, w.down[i].sid);
  }

  lemma OtherAnswerHolds(cfg: Config, w: World, released: set<(string, string)>, i: nat, keyOk: bool, sid: string)
    requires CanStep(cfg, w, ReceiveAnswer(i, keyOk)) && Holds(w, released, sid) && w.down[i].sid != sid
    ensures Holds(DoReceiveAnswer(w, i, keyOk), released + ReleasedIn(cfg, w, ReceiveAnswer(i, keyOk)), sid)
  {
    AnswerDials(w, i, keyOk, sid);
  }

  lemma ReceiveFailureHolds(cfg: Config, w: World, released: set<(string, string)>, i: nat, sid: string)
    requires Inv(cfg, w) && Holds(w, released, sid) && CanStep(cfg, w, ReceiveFailure(i))
    ensures Holds(DoReceiveFailure(w, i), released + ReleasedIn(cfg, w, ReceiveFailure(i)), sid)
  {
  }

  /** In every run each side keeps the entry it needs until it dials, unless a failure or refusal released it. */
  lemma {:induction false} EntriesHeld(cfg: Config, devices: set<string>, relay: R.RelayState, now: int, run: seq<Step>)
    requires R.Paired(relay)
    ensures var start := Initial(devices, relay, now); AllHeld(Exec(cfg, start, run), Released(cfg, start, run))
  {
    var start := Initial(devices, relay, now);
    if run == [] {
    } else {
      var earlier := run[..|run| - 1];
      EntriesHeld(cfg, devices, relay, now, earlier);
      RunKeepsInv(cfg, devices, relay, now, earlier);
      var before, released := Exec(cfg, start, earlier), Released(cfg, start, earlier);
      if CanStep(cfg, before, run[|run| - 1]) {
        StepKeepsHeld(cfg, before, released, run[|run| - 1]);
      } else {
        assert Released(cfg, start, run) == released;
      }
    }
  }

  // ----- what a delivered failure ends -----

  /** The session's offer is past, and this device holds nothing of it. */
  predicate Gone(w: World, d: string, sid: string) {
    && sid in w.origin && (PlaceOf(w, sid) == Granted || PlaceOf(w, sid) == Over)
    && (d in w.clients ==> sid !in w.clients[d].outbound && sid !in w.clients[d].inbound)
  }

  predicate NewDial(before: seq<Dial>, after: seq<Dial>, d: string, sid: string) {
    exists k :: |before| <= k < |after| && after[k].device == d && after[k].sid == sid
  }

  lemma GoneStays(cfg: Config, w: World, step: Step, d: string, sid: string)
    requires Inv(cfg, w) && CanStep(cfg, w, step) && Gone(w, d, sid)
    ensures Gone(Next(cfg, w, step), d, sid) && w.dials <= Next(cfg, w, step).dials
    ensures !NewDial(w.dials, Next(cfg, w, step).dials, d, sid)
  {
    assert OneToken(w, sid);
    PlaceStaysPast(cfg, w, step, sid);
    EntriesStayGone(cfg, w, step, d, sid);
    if step.ReceiveAnswer? {
      NoDialWithoutEntry(w, step.i, step.keyOk, d, sid);
    }
  }

  /** No step moves the offer of a session that is past: that takes an offer or an accept, and there is none. */
  lemma PlaceStaysPast(cfg: Config, w: World, step: Step, sid: string)
    requires OneToken(w, sid) && CanStep(cfg, w, step) && sid in w.origin
    requires PlaceOf(w, sid) == Granted || PlaceOf(w, sid) == Over
    ensures var w' := Next(cfg, w, step);
            sid in w'.origin && (PlaceOf(w', sid) == Granted || PlaceOf(w', sid) == Over)
  {
    if step.ServeOffer? {
      HasToken(w.up, step.i);
    } else if step.ReceiveOffer? {
      HasToken(w.down, step.i);
    } else if step.ServeAnswerAt? || step.Respond? || step.Dispatch? {
    } else {
      PlaceOnlyEnds(cfg, w, step, sid);
    }
  }

  lemma PlaceOnlyEnds(cfg: Config, w: World, step: Step, sid: string)
    requires CanStep(cfg, w, step)
    requires !step.ServeOffer? && !step.ReceiveOffer? && !step.ServeAnswerAt? && !step.Respond? && !step.Dispatch?
    ensures Next(cfg, w, step).origin == w.origin
    ensures PlaceOf(Next(cfg, w, step), sid) == PlaceOf(w, sid) || PlaceOf(Next(cfg, w, step), sid) == Over
  {
  }

  lemma EntriesStayGone(cfg: Config, w: World, step: Step, d: string, sid: string)
    requires Inv(cfg, w) && CanStep(cfg, w, step) && Gone(w, d, sid)
    ensures var clients := Next(cfg, w, step).clients;
            d in clients ==> sid !in clients[d].outbound && sid !in clients[d].inbound
    ensures !step.ReceiveAnswer? ==> Next(cfg, w, step).dials == w.dials
  {
    assert OneToken(w, sid);
    if step.ReceiveOffer? {
      HasToken(w.down, step.i);
    } else if step.Respond? || step.Dispatch? {
    } else {
      EntriesOnlyGo(cfg, w, step, d, sid);
    }
  }

  lemma EntriesOnlyGo(cfg: Config, w: World, step: Step, d: string, sid: string)
    requires CanStep(cfg, w, step) && !step.ReceiveOffer? && !step.Respond? && !step.Dispatch?
    ensures Next(cfg, w, step).clients.Keys == w.clients.Keys
    ensures d in w.clients ==>
              && (sid in Next(cfg, w, step).clients[d].outbound ==> sid in w.clients[d].outbound)
              && (sid in Next(cfg, w, step).clients[d].inbound ==> sid in w.clients[d].inbound)
    ensures !step.ReceiveAnswer? ==> Next(cfg, w, step).dials == w.dials
  {
  }

  lemma NoDialWithoutEntry(w: World, i: nat, keyOk: bool, d: string, sid: string)
    requires i < |w.down| && w.down[i].AnswerMsg? && w.down[i].to in w.clients
    requires d in w.clients ==> sid !in w.clients[d].outbound && sid !in w.clients[d].inbound
    ensures w.dials <= DoReceiveAnswer(w, i, keyOk).dials
    ensures !NewDial(w.dials, DoReceiveAnswer(w, i, keyOk).dials, d, sid)
  {
  }

  lemma {:induction false} GoneForGood(cfg: Config, w: World, run: seq<Step>, d: string, sid: string)
    requires Inv(cfg, w) && Gone(w, d, sid)
    ensures Inv(cfg, Exec(cfg, w, run)) && Gone(Exec(cfg, w, run), d, sid) && w.dials <= Exec(cfg, w, run).dials
    ensures !NewDial(w.dials, Exec(cfg, w, run).dials, d, sid)
  {
    if run == [] {
    } else {
      var earlier, step := run[..|run| - 1], run[|run| - 1];
      GoneForGood(cfg, w, earlier, d, sid);
      var before := Exec(cfg, w, earlier);
      if CanStep(cfg, before, step) {
        StepKeepsInv(cfg, before, step);
        GoneStays(cfg, before, step, d, sid);
      }
    }
  }

  /** Once the failure of a session whose offer is past was delivered to a device, that device never dials for it. */
  lemma FailedNeverDials(cfg: Config, devices: set<string>, relay: R.RelayState, now: int, run: seq<Step>, i: nat,
                         later: seq<Step>)
    requires R.Paired(relay)
    requires var w := Exec(cfg, Initial(devices, relay, now), run);
             && CanStep(cfg, w, ReceiveFailure(i)) && w.down[i].sid in w.origin
             && PlaceOf(w, w.down[i].sid) in {Granted, Over}
    ensures var w := Exec(cfg, Initial(devices, relay, now), run);
            var end := Exec(cfg, Next(cfg, w, ReceiveFailure(i)), later);
            w.dials <= end.dials && !NewDial(w.dials, end.dials, w.down[i].to, w.down[i].sid)
  {
    RunKeepsInv(cfg, devices, relay, now, run);
    var w := Exec(cfg, Initial(devices, relay, now), run);
    StepKeepsInv(cfg, w, ReceiveFailure(i));
    GoneForGood(cfg, Next(cfg, w, ReceiveFailure(i)), later, w.down[i].to, w.down[i].sid);
  }

  /** An answer that ends the session for this client: a refusal, or a grant for which no key can be derived. */
  predicate Ends(m: Msg, keyOk: bool) {
    m.AnswerMsg? && (!m.accepted || (m.token.Some? && !keyOk))
  }

  lemma EndsTakesEntries(cfg: Config, w: World, i: nat, keyOk: bool)
    requires Inv(cfg, w) && CanStep(cfg, w, ReceiveAnswer(i, keyOk)) && Ends(w.down[i], keyOk)
    requires w.down[i].sid in w.origin && w.origin[w.down[i].sid].0 != w.origin[w.down[i].sid].1
    ensures var (m, w') := (w.down[i], DoReceiveAnswer(w, i, keyOk));
            && m.sid !in w'.clients[m.to].outbound && m.sid !in w'.clients[m.to].inbound
            && w'.dials == w.dials && w'.origin == w.origin && w'.place == w.place
  {
    assert ClientHonest(w, w.down[i].to, w.clients[w.down[i].to]);
  }

  /** Nor does it once a refusal, or a grant without a key, was delivered to it. */
  lemma RefusedNeverDials(cfg: Config, devices: set<string>, relay: R.RelayState, now: int, run: seq<Step>, i: nat,
                          keyOk: bool, later: seq<Step>)
    requires R.Paired(relay)
    requires var w := Exec(cfg, Initial(devices, relay, now), run);
             && CanStep(cfg, w, ReceiveAnswer(i, keyOk)) && Ends(w.down[i], keyOk)
             && w.down[i].sid in w.origin && w.origin[w.down[i].sid].0 != w.origin[w.down[i].sid].1
             && PlaceOf(w, w.down[i].sid) in {Granted, Over}
    ensures var w := Exec(cfg, Initial(devices, relay, now), run);
            var end := Exec(cfg, Next(cfg, w, ReceiveAnswer(i, keyOk)), later);
            w.dials <= end.dials && !NewDial(w.dials, end.dials, w.down[i].to, w.down[i].sid)
  {
    RunKeepsInv(cfg, devices, relay, now, run);
    var w := Exec(cfg, Initial(devices, relay, now), run);
    StepKeepsInv(cfg, w, ReceiveAnswer(i, keyOk));
    EndsTakesEntries(cfg, w, i, keyOk);
    GoneForGood(cfg, Next(cfg, w, ReceiveAnswer(i, keyOk)), later, w.down[i].to, w.down[i].sid);
  }

  // ----- nobody else is let in -----

  /** Until the authorization ended the data plane admits the granted token from the session's own two devices only. */
  lemma OnlyParticipantsAreAccepted(cfg: Config, devices: set<string>, relay: R.RelayState, now: int, run: seq<Step>,
                                    sid: string, role: R.Role, device: string, target: string, token: string)
    requires R.Paired(relay)
    requires var w := Exec(cfg, Initial(devices, relay, now), run); sid in w.granted && sid !in w.ended
    ensures var w := Exec(cfg, Initial(devices, relay, now), run);
            && sid in w.origin
            && var (sender, receiver) := w.origin[sid];
               R.Check(w.relay, sid, role, device, target, token, w.now) == None <==>
               && token == w.granted[sid].token
               && ((role == R.SenderRole && device == sender && target in {"", receiver}) ||
                   (role == R.ReceiverRole && device == receiver && target in {"", sender}))
  {
    RunKeepsInv(cfg, devices, relay, now, run);
    assert GrantHonest(Exec(cfg, Initial(devices, relay, now), run), cfg.account, sid);
  }

  /** The server's grant is for five minutes from the moment it was given, and for the session's own pair. */
  lemma GrantLasts(cfg: Config, w: World, i: nat, token: string)
    requires Inv(cfg, w) && i < |w.up| && w.up[i].AnswerMsg? && w.up[i].accepted
    requires w.up[i].sid in DoServeAnswer(cfg, w, i, Some(token)).granted
    ensures var sid := w.up[i].sid;
            && sid in w.origin
            && DoServeAnswer(cfg, w, i, Some(token)).granted[sid] ==
               R.Auth(w.origin[sid].0, w.origin[sid].1, cfg.account, token, w.now + 300_000_000_000)
  {
    OfferIsHonest(cfg, w, w.up[i]);
    assert OneToken(w, w.up[i].sid);
    HasToken(w.up, i);
  }
}
