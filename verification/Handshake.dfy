/**
 The OFFER / ANSWER / token handshake: the clients' pending maps, the control server and the relay manager, with
 messages that may be delayed, reordered and lost, and other accounts and sweeps acting on the relay in between.
 */
module Handshake {
  import opened Wrappers
  import opened Relay

  // ----- messages and clients -----

  /** Control messages; the server forces `from` to the connection's own device. */
  datatype Msg =
    | OfferMsg(sid: string, from: string, to: string)
    | AnswerMsg(sid: string, from: string, to: string, accepted: bool, token: Option<string>)
    | FailureMsg(sid: string, to: string)

  /** A data-plane connection a client task opens. */
  datatype Dial = Dial(role: Role, sid: string, device: string, target: string, token: string)

  /** Outbound offers by session, accepted inbound ones, and those waiting for the user, with their sender. */
  datatype Client = Client(outbound: set<string>, inbound: map<string, string>, confirm: map<string, string>)

  datatype Decision = AutoAccept | Ask | KeyMismatch

  function OnOffer(c: Client, m: Msg, decision: Decision): (Client, seq<Msg>)
    requires m.OfferMsg?
  {
    match decision
    case AutoAccept => (c.(inbound := c.inbound[m.sid := m.from]), [AnswerMsg(m.sid, m.to, m.from, true, None)])
    case Ask => (c.(confirm := c.confirm[m.sid := m.from]), [])
    case KeyMismatch => (c, [AnswerMsg(m.sid, m.to, m.from, false, None)])
  }

  /** respond_pending_offer, and the watchdog's refusal when the wait is over. */
  function OnRespond(c: Client, self: string, sid: string, accept: bool): (Client, seq<Msg>)
    requires sid in c.confirm
  {
    var sender := c.confirm[sid];
    var c' := c.(confirm := c.confirm - {sid});
    if accept then (c'.(inbound := c'.inbound[sid := sender]), [AnswerMsg(sid, self, sender, true, None)])
    else (c', [AnswerMsg(sid, self, sender, false, None)])
  }

  /** The ANSWER branch: with a token the sender's entry is tried first; `keyOk` is the key derivation. */
  function OnAnswer(c: Client, m: Msg, keyOk: bool): (Client, Option<Dial>)
    requires m.AnswerMsg?
  {
    if !m.accepted then (c.(outbound := c.outbound - {m.sid}, inbound := c.inbound - {m.sid}), None)
    else if m.token.None? then (c, None)
    else if m.sid in c.outbound then
      (c.(outbound := c.outbound - {m.sid}),
       if keyOk then Some(Dial(SenderRole, m.sid, m.to, m.from, m.token.value)) else None)
    else if m.sid in c.inbound then
      (c.(inbound := c.inbound - {m.sid}),
       if keyOk then Some(Dial(ReceiverRole, m.sid, m.to, c.inbound[m.sid], m.token.value)) else None)
    else (c, None)
  }

  function OnFailure(c: Client, sid: string): Client {
    c.(outbound := c.outbound - {sid}, inbound := c.inbound - {sid})
  }

  const TTL: int := 300_000_000_000

  /** The server's ANSWER case: authorize, then echo to the receiver and forward to the sender, or refuse both. */
  function ServeAnswer(s: RelayState, account: string, limit: int, m: Msg, random: Option<string>,
                       now: int): (RelayState, seq<Msg>)
    requires m.AnswerMsg?
  {
    if !m.accepted then (s, [m])
    else
      var (s', r, _) := Authorize(s, m.sid, m.to, m.from, account, TTL, limit, random, now);
      match r
      case Ok(token) => (s', [m.(to := m.from, token := Some(token)), m.(token := Some(token))])
      case Err(_) => (s', [FailureMsg(m.sid, m.from), FailureMsg(m.sid, m.to)])
  }

  // ----- the world of one account -----

  /** Where the one offer of a session is; a history variable that decides nothing. */
  datatype Place = OfferUp | OfferDown | Waiting(device: string) | AcceptUp | Granted | Over

  datatype World = World(
    clients: map<string, Client>, up: seq<Msg>, down: seq<Msg>, relay: RelayState, now: int, dials: seq<Dial>,
    origin: map<string, (string, string)>, place: map<string, Place>, granted: map<string, Auth>, ended: set<string>)

  datatype Step =
    | Dispatch(device: string, to: string, sid: string)
    | ServeOffer(i: nat, withinLimits: bool)
    | ServeAnswerAt(i: nat, random: Option<string>)
    | ReceiveOffer(i: nat, decision: Decision)
    | Respond(device: string, sid: string, accept: bool)
    | ReceiveAnswer(i: nat, keyOk: bool)
    | ReceiveFailure(i: nat)
    | LoseUp(i: nat)
    | LoseDown(i: nat)
    | PeerFails(sid: string, to: string)
    | Advance(elapsed: nat)
    | OnRelay(op: Op)

  datatype Config = Config(account: string, caps: Caps)

  function Without<T>(s: seq<T>, i: nat): seq<T>
    requires i < |s|
  {
    s[..i] + s[i + 1..]
  }

  /** A session id is minted once; relay calls of other accounts and teardowns by anyone are free. */
  predicate CanStep(cfg: Config, w: World, step: Step) {
    match step
    case Dispatch(device, _, sid) => device in w.clients && sid !in w.origin
    case ServeOffer(i, _) => i < |w.up| && w.up[i].OfferMsg?
    case ServeAnswerAt(i, _) => i < |w.up| && w.up[i].AnswerMsg?
    case ReceiveOffer(i, _) => i < |w.down| && w.down[i].OfferMsg? && w.down[i].to in w.clients
    case Respond(device, sid, _) => device in w.clients && sid in w.clients[device].confirm
    case ReceiveAnswer(i, _) => i < |w.down| && w.down[i].AnswerMsg? && w.down[i].to in w.clients
    case ReceiveFailure(i) => i < |w.down| && w.down[i].FailureMsg? && w.down[i].to in w.clients
    case LoseUp(i) => i < |w.up|
    case LoseDown(i) => i < |w.down|
    case PeerFails(_, _) => true
    case Advance(_) => true
    case OnRelay(op) => op.AuthorizeOp? ==> op.account != cfg.account
  }

  /** A message that leaves the network takes its session's offer with it, unless it is passed on. */
  function Lost(w: World, m: Msg): World {
    if m.OfferMsg? || (m.AnswerMsg? && m.accepted && m.token.None?) then w.(place := w.place[m.sid := Over]) else w
  }

  /** The granted sessions whose authorization has by now ended at least once. */
  function NoteEnded(w: World): World {
    w.(ended := w.ended + set sid | sid in w.granted && !(sid in w.relay.auths && Live(w.relay, sid, w.now)))
  }

  function DoDispatch(w: World, device: string, to: string, sid: string): World
    requires device in w.clients
  {
    var c := w.clients[device];
    w.(clients := w.clients[device := c.(outbound := c.outbound + {sid})], up := w.up + [OfferMsg(sid, device, to)],
       origin := w.origin[sid := (device, to)], place := w.place[sid := OfferUp])
  }

  function DoServeOffer(w: World, i: nat, withinLimits: bool): World
    requires i < |w.up| && w.up[i].OfferMsg?
  {
    var m := w.up[i];
    if withinLimits then w.(up := Without(w.up, i), down := w.down + [m], place := w.place[m.sid := OfferDown])
    else w.(up := Without(w.up, i), down := w.down + [FailureMsg(m.sid, m.from)], place := w.place[m.sid := Over])
  }

  function DoServeAnswer(cfg: Config, w: World, i: nat, random: Option<string>): World
    requires i < |w.up| && w.up[i].AnswerMsg?
  {
    var m := w.up[i];
    var (relay, out) := ServeAnswer(w.relay, cfg.account, cfg.caps.transfers, m, random, w.now);
    var w1 := w.(up := Without(w.up, i), down := w.down + out, relay := relay);
    if !m.accepted then w1
    else if out[0].FailureMsg? then w1.(place := w1.place[m.sid := Over])
    else NoteEnded(w1.(place := w1.place[m.sid := Granted], granted := w1.granted[m.sid := relay.auths[m.sid]]))
  }

  function PlaceAfter(decision: Decision, device: string): Place {
    match decision
    case AutoAccept => AcceptUp
    case Ask => Waiting(device)
    case KeyMismatch => Over
  }

  function DoReceiveOffer(w: World, i: nat, decision: Decision): World
    requires i < |w.down| && w.down[i].OfferMsg? && w.down[i].to in w.clients
  {
    var m := w.down[i];
    var (c, out) := OnOffer(w.clients[m.to], m, decision);
    w.(clients := w.clients[m.to := c], down := Without(w.down, i), up := w.up + out,
       place := w.place[m.sid := PlaceAfter(decision, m.to)])
  }

  function DoRespond(w: World, device: string, sid: string, accept: bool): World
    requires device in w.clients && sid in w.clients[device].confirm
  {
    var (c, out) := OnRespond(w.clients[device], device, sid, accept);
    w.(clients := w.clients[device := c], up := w.up + out, place := w.place[sid := if accept then AcceptUp else Over])
  }

  function DoReceiveAnswer(w: World, i: nat, keyOk: bool): World
    requires i < |w.down| && w.down[i].AnswerMsg? && w.down[i].to in w.clients
  {
    var m := w.down[i];
    var (c, dial) := OnAnswer(w.clients[m.to], m, keyOk);
    w.(clients := w.clients[m.to := c], down := Without(w.down, i),
       dials := if dial.Some? then w.dials + [dial.value] else w.dials)
  }

  function DoReceiveFailure(w: World, i: nat): World
    requires i < |w.down| && w.down[i].FailureMsg? && w.down[i].to in w.clients
  {
    var m := w.down[i];
    w.(clients := w.clients[m.to := OnFailure(w.clients[m.to], m.sid)], down := Without(w.down, i))
  }

  function DoOnRelay(cfg: Config, w: World, op: Op): World {
    NoteEnded(w.(relay := Relay.Step(w.relay, cfg.caps, Timed(w.now, op))))
  }

  function Next(cfg: Config, w: World, step: Step): World
    requires CanStep(cfg, w, step)
  {
    match step
    case Dispatch(device, to, sid) => DoDispatch(w, device, to, sid)
    case ServeOffer(i, withinLimits) => DoServeOffer(w, i, withinLimits)
    case ServeAnswerAt(i, random) => DoServeAnswer(cfg, w, i, random)
    case ReceiveOffer(i, decision) => DoReceiveOffer(w, i, decision)
    case Respond(device, sid, accept) => DoRespond(w, device, sid, accept)
    case ReceiveAnswer(i, keyOk) => DoReceiveAnswer(w, i, keyOk)
    case ReceiveFailure(i) => DoReceiveFailure(w, i)
    case LoseUp(i) => Lost(w.(up := Without(w.up, i)), w.up[i])
    case LoseDown(i) => Lost(w.(down := Without(w.down, i)), w.down[i])
    case PeerFails(sid, to) => w.(down := w.down + [FailureMsg(sid, to)])
    case Advance(elapsed) => NoteEnded(w.(now := w.now + elapsed))
    case OnRelay(op) => DoOnRelay(cfg, w, op)
  }

  function Initial(devices: set<string>, relay: RelayState, now: int): World {
    World(map d | d in devices :: Client({}, map[], map[]), [], [], relay, now, [], map[], map[], map[], {})
  }

  function Exec(cfg: Config, start: World, run: seq<Step>): World {
    if run == [] then start
    else
      var before := Exec(cfg, start, run[..|run| - 1]);
      if CanStep(cfg, before, run[|run| - 1]) then Next(cfg, before, run[|run| - 1]) else before
  }

  // ----- the invariant -----

  predicate IsOffer(m: Msg, sid: string) {
    m.OfferMsg? && m.sid == sid
  }

  predicate IsAccept(m: Msg, sid: string) {
    m.AnswerMsg? && m.sid == sid && m.accepted && m.token.None?
  }

  predicate IsDial(d: Dial, role: Role, sid: string) {
    d.role == role && d.sid == sid
  }

  function Offers(s: seq<Msg>, sid: string): nat {
    if s == [] then 0 else Offers(s[..|s| - 1], sid) + if IsOffer(s[|s| - 1], sid) then 1 else 0
  }

  function Accepts(s: seq<Msg>, sid: string): nat {
    if s == [] then 0 else Accepts(s[..|s| - 1], sid) + if IsAccept(s[|s| - 1], sid) then 1 else 0
  }

  function Dials(s: seq<Dial>, role: Role, sid: string): nat {
    if s == [] then 0 else Dials(s[..|s| - 1], role, sid) + if IsDial(s[|s| - 1], role, sid) then 1 else 0
  }

  function PlaceOf(w: World, sid: string): Place {
    if sid in w.place then w.place[sid] else Over
  }

  function Count(b: bool): nat {
    if b then 1 else 0
  }

  /** There is one token of the session's offer, and it is where `place` says. */
  ghost predicate OneToken(w: World, sid: string) {
    && Counted(w.up, w.down, PlaceOf(w, sid), sid)
    && (forall d :: d in w.clients && sid in w.clients[d].confirm ==> PlaceOf(w, sid) == Waiting(d))
    && (sid in w.granted <==> PlaceOf(w, sid) == Granted)
    && (sid !in w.origin ==> PlaceOf(w, sid) == Over)
  }

  ghost predicate Counted(up: seq<Msg>, down: seq<Msg>, place: Place, sid: string) {
    && Offers(up, sid) == Count(place == OfferUp)
    && Offers(down, sid) == Count(place == OfferDown)
    && Accepts(up, sid) == Count(place == AcceptUp)
    && Accepts(down, sid) == 0
  }

  /** An offer or accept names the devices of the session's one dispatch. */
  ghost predicate MsgHonest(w: World, m: Msg) {
    match m
    case OfferMsg(sid, from, to) => sid in w.origin && w.origin[sid] == (from, to)
    case AnswerMsg(sid, from, to, accepted, token) =>
      && (accepted && token.None? ==> sid in w.origin && w.origin[sid] == (to, from))
      && (accepted && token.Some? ==>
          sid in w.granted && token.value == w.granted[sid].token && from == w.granted[sid].receiver)
    case FailureMsg(_, _) => true
  }

  ghost predicate ClientHonest(w: World, d: string, c: Client) {
    && (forall sid :: sid in c.outbound ==> sid in w.origin && w.origin[sid].0 == d)
    && (forall sid :: sid in c.inbound ==> sid in w.origin && w.origin[sid] == (c.inbound[sid], d))
    && (forall sid :: sid in c.confirm ==> sid in w.origin && w.origin[sid] == (c.confirm[sid], d))
  }

  /** Each side's entry is used up by its one dial. */
  ghost predicate EntriesUsedOnce(w: World, sid: string) {
    && Dials(w.dials, SenderRole, sid) <= 1
    && Dials(w.dials, ReceiverRole, sid) <= 1
    && (forall d :: d in w.clients && sid in w.clients[d].outbound ==> Dials(w.dials, SenderRole, sid) == 0)
    && (forall d :: d in w.clients && sid in w.clients[d].inbound ==>
          Dials(w.dials, ReceiverRole, sid) == 0)
    && (Dials(w.dials, ReceiverRole, sid) > 0 || Dials(w.dials, SenderRole, sid) > 0 ==> sid in w.granted)
  }

  ghost predicate GrantHonest(w: World, account: string, sid: string)
    requires sid in w.granted
  {
    && sid in w.origin
    && SamePair(w.granted[sid], w.origin[sid].0, w.origin[sid].1, account)
    && (sid in w.ended || (sid in w.relay.auths && w.relay.auths[sid] == w.granted[sid] && Live(w.relay, sid, w.now)))
  }

  ghost predicate DialHonest(w: World, d: Dial) {
    && d.sid in w.granted
    && d.token == w.granted[d.sid].token
    && (d.role == SenderRole ==> d.device == w.granted[d.sid].sender && d.target == w.granted[d.sid].receiver)
    && (d.role == ReceiverRole ==> d.device == w.granted[d.sid].receiver && d.target == w.granted[d.sid].sender)
    && d.role != OtherRole
  }

  ghost predicate Inv(cfg: Config, w: World) {
    && Paired(w.relay)
    && (forall sid :: OneToken(w, sid))
    && (forall m :: m in w.up || m in w.down ==> MsgHonest(w, m))
    && (forall m :: m in w.up && m.AnswerMsg? ==> m.token.None?)
    && (forall d :: d in w.clients ==> ClientHonest(w, d, w.clients[d]))
    && (forall sid :: EntriesUsedOnce(w, sid))
    && (forall sid :: sid in w.granted ==> GrantHonest(w, cfg.account, sid))
    && (forall d :: d in w.dials ==> DialHonest(w, d))
  }

  // ----- counting -----

  lemma {:induction false} CountsConcat(a: seq<Msg>, b: seq<Msg>, sid: string)
    ensures Offers(a + b, sid) == Offers(a, sid) + Offers(b, sid)
    ensures Accepts(a + b, sid) == Accepts(a, sid) + Accepts(b, sid)
  {
    if b == [] {
      assert a + b == a;
    } else {
      var n := |b| - 1;
      CountsConcat(a, b[..n], sid);
      assert (a + b)[..|a| + n] == a + b[..n];
    }
  }

  lemma CountOne(m: Msg, sid: string)
    ensures Offers([m], sid) == Count(IsOffer(m, sid))
    ensures Accepts([m], sid) == Count(IsAccept(m, sid))
  {
    assert [m][..0] == [];
  }

  lemma CountsAppend(s: seq<Msg>, m: Msg, sid: string)
    ensures Offers(s + [m], sid) == Offers(s, sid) + Count(IsOffer(m, sid))
    ensures Accepts(s + [m], sid) == Accepts(s, sid) + Count(IsAccept(m, sid))
  {
    CountsConcat(s, [m], sid);
    CountOne(m, sid);
  }

  lemma CountsWithout(s: seq<Msg>, i: nat, sid: string)
    requires i < |s|
    ensures Offers(Without(s, i), sid) == Offers(s, sid) - Count(IsOffer(s[i], sid))
    ensures Accepts(Without(s, i), sid) == Accepts(s, sid) - Count(IsAccept(s[i], sid))
  {
    CountsConcat(s[..i], s[i + 1..], sid);
    assert s == s[..i] + [s[i]] + s[i + 1..];
    CountsConcat(s[..i] + [s[i]], s[i + 1..], sid);
    CountsAppend(s[..i], s[i], sid);
  }

  lemma DialsAppend(s: seq<Dial>, d: Dial, role: Role, sid: string)
    ensures Dials(s + [d], role, sid) == Dials(s, role, sid) + Count(IsDial(d, role, sid))
  {
    assert (s + [d])[..|s|] == s;
  }

  lemma WithoutIn(s: seq<Msg>, i: nat)
    requires i < |s|
    ensures forall m :: m in Without(s, i) ==> m in s
  {
  }

  // ----- the parts of the invariant -----

  ghost predicate Messages(w: World) {
    && (forall m :: m in w.up || m in w.down ==> MsgHonest(w, m))
    && (forall m :: m in w.up && m.AnswerMsg? ==> m.token.None?)
  }

  ghost predicate ClientsHonest(w: World) {
    forall d :: d in w.clients ==> ClientHonest(w, d, w.clients[d])
  }

  ghost predicate Grants(cfg: Config, w: World) {
    Paired(w.relay) && (forall sid :: sid in w.granted ==> GrantHonest(w, cfg.account, sid))
  }

  ghost predicate DialsHonest(w: World) {
    forall d :: d in w.dials ==> DialHonest(w, d)
  }

  ghost predicate Tokens(w: World) {
    forall sid :: OneToken(w, sid)
  }

  ghost predicate Entries(w: World) {
    forall sid :: EntriesUsedOnce(w, sid)
  }

  // ----- steps that grant nothing and start nothing -----

  /**
   The relay, the clock and the dials stay; messages are old or honest; entries are only removed, or inserted by the
   accept of a session that is not granted yet.
   */
  ghost predicate Calm(w: World, w': World, sid: string) {
    && w'.relay == w.relay && w'.now == w.now && w'.granted == w.granted && w'.ended == w.ended
    && w'.origin == w.origin && w'.dials == w.dials && w'.clients.Keys == w.clients.Keys
    && (forall m :: m in w'.up || m in w'.down ==> m in w.up || m in w.down || MsgHonest(w, m))
    && (forall m :: m in w'.up ==> m in w.up || !m.AnswerMsg? || m.token.None?)
    && (forall d :: d in w.clients ==> CalmClient(w, d, w.clients[d], w'.clients[d], sid))
  }

  ghost predicate CalmClient(w: World, d: string, c: Client, c': Client, sid: string) {
    && c'.outbound <= c.outbound
    && (forall x :: x in c'.inbound ==> (x in c.inbound && c'.inbound[x] == c.inbound[x]) ||
                                        (x == sid && sid !in w.granted && sid in w.origin &&
                                            w.origin[sid] == (c'.inbound[x], d)))
    && (forall x :: x in c'.confirm ==> (x in c.confirm && c'.confirm[x] == c.confirm[x]) ||
                                        (x == sid && sid in w.origin && w.origin[sid] == (c'.confirm[x], d)))
  }

  lemma CalmEntries(w: World, w': World, sid: string)
    requires Entries(w) && Calm(w, w', sid)
    ensures Entries(w')
  {
    forall x
      ensures EntriesUsedOnce(w', x)
    {
      assert EntriesUsedOnce(w, x);
      assert forall d :: d in w.clients ==> CalmClient(w, d, w.clients[d], w'.clients[d], sid);
    }
  }

  lemma CalmRest(cfg: Config, w: World, w': World, sid: string)
    requires Inv(cfg, w) && Calm(w, w', sid)
    ensures Messages(w') && ClientsHonest(w') && Grants(cfg, w') && DialsHonest(w')
  {
    forall m | m in w'.up || m in w'.down
      ensures MsgHonest(w', m)
    {
      assert MsgHonest(w, m);
    }
    forall d | d in w'.clients
      ensures ClientHonest(w', d, w'.clients[d])
    {
      assert ClientHonest(w, d, w.clients[d]) && CalmClient(w, d, w.clients[d], w'.clients[d], sid);
    }
    forall x | x in w'.granted
      ensures GrantHonest(w', cfg.account, x)
    {
      assert GrantHonest(w, cfg.account, x);
    }
    forall d | d in w'.dials
      ensures DialHonest(w', d)
    {
      assert DialHonest(w, d);
    }
  }

  lemma CalmKeepsInv(cfg: Config, w: World, w': World, sid: string)
    requires Inv(cfg, w) && Calm(w, w', sid) && Tokens(w')
    ensures Inv(cfg, w')
  {
    CalmEntries(w, w', sid);
    CalmRest(cfg, w, w', sid);
  }

  lemma HasToken(s: seq<Msg>, i: nat)
    requires i < |s|
    ensures s[i].OfferMsg? ==> Offers(s, s[i].sid) >= 1
    ensures s[i].AnswerMsg? && s[i].accepted && s[i].token.None? ==> Accepts(s, s[i].sid) >= 1
  {
    if !s[i].FailureMsg? {
      CountsWithout(s, i, s[i].sid);
    }
  }

  lemma ServeOfferTokens(w: World, i: nat, withinLimits: bool)
    requires Tokens(w) && i < |w.up| && w.up[i].OfferMsg? && w.up[i].sid in w.origin
    ensures Tokens(DoServeOffer(w, i, withinLimits))
  {
    var m := w.up[i];
    var w' := DoServeOffer(w, i, withinLimits);
    HasToken(w.up, i);
    assert OneToken(w, m.sid);
    forall x
      ensures OneToken(w', x)
    {
      assert OneToken(w, x);
      CountsWithout(w.up, i, x);
      CountsAppend(w.down, if withinLimits then m else FailureMsg(m.sid, m.from), x);
    }
  }

  lemma ServeOfferKeepsInv(cfg: Config, w: World, i: nat, withinLimits: bool)
    requires Inv(cfg, w) && i < |w.up| && w.up[i].OfferMsg?
    ensures Inv(cfg, DoServeOffer(w, i, withinLimits))
  {
    assert MsgHonest(w, w.up[i]);
    WithoutIn(w.up, i);
    ServeOfferTokens(w, i, withinLimits);
    CalmKeepsInv(cfg, w, DoServeOffer(w, i, withinLimits), w.up[i].sid);
  }

  lemma ReceiveOfferShape(w: World, i: nat, decision: Decision)
    requires i < |w.down| && w.down[i].OfferMsg? && w.down[i].to in w.clients
    ensures var m := w.down[i];
            var w' := DoReceiveOffer(w, i, decision);
            && w'.down == Without(w.down, i)
            && w'.up == (if decision.Ask? then w.up
                         else w.up + [AnswerMsg(m.sid, m.to, m.from, decision.AutoAccept?, None)])
            && forall x :: PlaceOf(w', x) == if x == m.sid then PlaceAfter(decision, m.to) else PlaceOf(w, x)
  {
  }

  lemma OfferConsumed(up: seq<Msg>, down: seq<Msg>, place: Place, i: nat, decision: Decision, answer: Msg, x: string)
    requires i < |down| && down[i].OfferMsg? && Counted(up, down, place, x)
    requires answer.AnswerMsg? && answer.sid == down[i].sid && answer.accepted == decision.AutoAccept? &&
             answer.token.None?
    ensures x == down[i].sid ==> place == OfferDown
    ensures Counted(if decision.Ask? then up else up + [answer], Without(down, i),
                    if x == down[i].sid then PlaceAfter(decision, down[i].to) else place, x)
  {
    HasToken(down, i);
    CountsWithout(down, i, x);
    CountsAppend(up, answer, x);
  }

  lemma ReceiveOfferCounts(w: World, i: nat, decision: Decision, x: string)
    requires OneToken(w, x) && i < |w.down| && w.down[i].OfferMsg? && w.down[i].to in w.clients
    ensures var w' := DoReceiveOffer(w, i, decision);
            Counted(w'.up, w'.down, PlaceOf(w', x), x)
    ensures x == w.down[i].sid ==> PlaceOf(w, x) == OfferDown
  {
    var m := w.down[i];
    ReceiveOfferShape(w, i, decision);
    var answer := AnswerMsg(m.sid, m.to, m.from, decision.AutoAccept?, None);
    OfferConsumed(w.up, w.down, PlaceOf(w, x), i, decision, answer, x);
  }

  lemma ReceiveOfferPlaces(w: World, i: nat, decision: Decision, x: string)
    requires OneToken(w, x) && i < |w.down| && w.down[i].OfferMsg? && w.down[i].to in w.clients &&
             w.down[i].sid in w.origin
    requires x == w.down[i].sid ==> PlaceOf(w, x) == OfferDown
    ensures var w' := DoReceiveOffer(w, i, decision);
            && (forall d :: d in w'.clients && x in w'.clients[d].confirm ==> PlaceOf(w', x) == Waiting(d))
            && (x in w'.granted <==> PlaceOf(w', x) == Granted)
            && (x !in w'.origin ==> PlaceOf(w', x) == Over)
  {
  }

  lemma ReceiveOfferTokens(w: World, i: nat, decision: Decision)
    requires Tokens(w) && i < |w.down| && w.down[i].OfferMsg? && w.down[i].to in w.clients && w.down[i].sid in w.origin
    ensures Tokens(DoReceiveOffer(w, i, decision))
    ensures w.down[i].sid !in w.granted
  {
    assert OneToken(w, w.down[i].sid);
    ReceiveOfferCounts(w, i, decision, w.down[i].sid);
    forall x
      ensures OneToken(DoReceiveOffer(w, i, decision), x)
    {
      assert OneToken(w, x);
      ReceiveOfferCounts(w, i, decision, x);
      ReceiveOfferPlaces(w, i, decision, x);
    }
  }

  lemma ReceiveOfferKeepsInv(cfg: Config, w: World, i: nat, decision: Decision)
    requires Inv(cfg, w) && i < |w.down| && w.down[i].OfferMsg? && w.down[i].to in w.clients
    ensures Inv(cfg, DoReceiveOffer(w, i, decision))
  {
    assert MsgHonest(w, w.down[i]);
    WithoutIn(w.down, i);
    ReceiveOfferTokens(w, i, decision);
    CalmKeepsInv(cfg, w, DoReceiveOffer(w, i, decision), w.down[i].sid);
  }

  lemma AnswerCounts(up: seq<Msg>, down: seq<Msg>, m: Msg, place: Place, x: string)
    requires Counted(up, down, place, x) && (x == m.sid ==> place.Waiting?)
    requires m.AnswerMsg? && m.token.None?
    ensures Counted(up + [m], down, if x == m.sid then (if m.accepted then AcceptUp else Over) else place, x)
  {
    CountsAppend(up, m, x);
  }

  lemma RespondShape(w: World, device: string, sid: string, accept: bool)
    requires device in w.clients && sid in w.clients[device].confirm
    ensures var w' := DoRespond(w, device, sid, accept);
            && w'.up == w.up + [AnswerMsg(sid, device, w.clients[device].confirm[sid], accept, None)]
            && w'.down == w.down
            && forall x :: PlaceOf(w', x) == if x == sid then (if accept then AcceptUp else Over) else PlaceOf(w, x)
  {
  }

  lemma RespondCounts(w: World, device: string, sid: string, accept: bool, x: string)
    requires OneToken(w, x) && device in w.clients && sid in w.clients[device].confirm
    ensures var w' := DoRespond(w, device, sid, accept);
            Counted(w'.up, w'.down, PlaceOf(w', x), x)
  {
    RespondShape(w, device, sid, accept);
    AnswerCounts(w.up, w.down, AnswerMsg(sid, device, w.clients[device].confirm[sid], accept, None), PlaceOf(w, x), x);
  }

  lemma RespondTokens(w: World, device: string, sid: string, accept: bool)
    requires Tokens(w) && device in w.clients && sid in w.clients[device].confirm && sid in w.origin
    ensures Tokens(DoRespond(w, device, sid, accept))
    ensures sid !in w.granted
  {
    assert OneToken(w, sid);
    forall x
      ensures OneToken(DoRespond(w, device, sid, accept), x)
    {
      assert OneToken(w, x);
      RespondCounts(w, device, sid, accept, x);
    }
  }

  lemma RespondKeepsInv(cfg: Config, w: World, device: string, sid: string, accept: bool)
    requires Inv(cfg, w) && device in w.clients && sid in w.clients[device].confirm
    ensures Inv(cfg, DoRespond(w, device, sid, accept))
  {
    assert ClientHonest(w, device, w.clients[device]);
    RespondTokens(w, device, sid, accept);
    CalmKeepsInv(cfg, w, DoRespond(w, device, sid, accept), sid);
  }

  lemma ReceiveFailureKeepsInv(cfg: Config, w: World, i: nat)
    requires Inv(cfg, w) && i < |w.down| && w.down[i].FailureMsg? && w.down[i].to in w.clients
    ensures Inv(cfg, DoReceiveFailure(w, i))
  {
    var w' := DoReceiveFailure(w, i);
    WithoutIn(w.down, i);
    forall x
      ensures OneToken(w', x)
    {
      assert OneToken(w, x);
      CountsWithout(w.down, i, x);
    }
    CalmKeepsInv(cfg, w, w', w.down[i].sid);
  }

  lemma LoseUpKeepsInv(cfg: Config, w: World, i: nat)
    requires Inv(cfg, w) && i < |w.up|
    ensures Inv(cfg, Lost(w.(up := Without(w.up, i)), w.up[i]))
  {
    var m, w' := w.up[i], Lost(w.(up := Without(w.up, i)), w.up[i]);
    assert MsgHonest(w, m);
    HasToken(w.up, i);
    WithoutIn(w.up, i);
    forall x
      ensures OneToken(w', x)
    {
      assert OneToken(w, x);
      CountsWithout(w.up, i, x);
    }
    CalmKeepsInv(cfg, w, w', m.sid);
  }

  lemma LoseDownKeepsInv(cfg: Config, w: World, i: nat)
    requires Inv(cfg, w) && i < |w.down|
    ensures Inv(cfg, Lost(w.(down := Without(w.down, i)), w.down[i]))
  {
    WithoutIn(w.down, i);
    LoseDownTokens(w, i);
    CalmKeepsInv(cfg, w, Lost(w.(down := Without(w.down, i)), w.down[i]), w.down[i].sid);
  }

  lemma LoseDownTokens(w: World, i: nat)
    requires Tokens(w) && i < |w.down|
    ensures Tokens(Lost(w.(down := Without(w.down, i)), w.down[i]))
  {
    var m, w' := w.down[i], Lost(w.(down := Without(w.down, i)), w.down[i]);
    assert OneToken(w, m.sid);
    HasToken(w.down, i);
    forall x
      ensures OneToken(w', x)
    {
      assert OneToken(w, x);
      CountsWithout(w.down, i, x);
    }
  }

  lemma PeerFailsKeepsInv(cfg: Config, w: World, sid: string, to: string)
    requires Inv(cfg, w)
    ensures Inv(cfg, w.(down := w.down + [FailureMsg(sid, to)]))
  {
    var w' := w.(down := w.down + [FailureMsg(sid, to)]);
    forall x
      ensures OneToken(w', x)
    {
      assert OneToken(w, x);
      CountsAppend(w.down, FailureMsg(sid, to), x);
    }
    CalmKeepsInv(cfg, w, w', sid);
  }

  // ----- a new session -----

  lemma InitialInv(cfg: Config, devices: set<string>, relay: RelayState, now: int)
    requires Paired(relay)
    ensures Inv(cfg, Initial(devices, relay, now))
  {
  }

  lemma DispatchTokens(w: World, device: string, to: string, sid: string)
    requires Tokens(w) && device in w.clients && sid !in w.origin
    ensures Tokens(DoDispatch(w, device, to, sid))
    ensures sid !in w.granted
  {
    var w' := DoDispatch(w, device, to, sid);
    assert OneToken(w, sid);
    forall x
      ensures OneToken(w', x)
    {
      assert OneToken(w, x);
      CountsAppend(w.up, OfferMsg(sid, device, to), x);
    }
  }

  lemma DispatchEntries(w: World, device: string, to: string, sid: string)
    requires Entries(w) && device in w.clients && sid !in w.granted
    ensures Entries(DoDispatch(w, device, to, sid))
  {
    var w' := DoDispatch(w, device, to, sid);
    assert EntriesUsedOnce(w, sid);
    forall x
      ensures EntriesUsedOnce(w', x)
    {
      assert EntriesUsedOnce(w, x);
    }
  }

  lemma DispatchKeepsInv(cfg: Config, w: World, device: string, to: string, sid: string)
    requires Inv(cfg, w) && device in w.clients && sid !in w.origin
    ensures Inv(cfg, DoDispatch(w, device, to, sid))
  {
    var w' := DoDispatch(w, device, to, sid);
    DispatchTokens(w, device, to, sid);
    DispatchEntries(w, device, to, sid);
    forall m | m in w'.up || m in w'.down
      ensures MsgHonest(w', m)
    {
      assert m in w.up || m in w.down ==> MsgHonest(w, m);
    }
    forall x | x in w'.granted
      ensures GrantHonest(w', cfg.account, x)
    {
      assert GrantHonest(w, cfg.account, x);
    }
    forall d | d in w'.clients
      ensures ClientHonest(w', d, w'.clients[d])
    {
      assert ClientHonest(w, d, w.clients[d]);
    }
    forall d | d in w'.dials
      ensures DialHonest(w', d)
    {
      assert DialHonest(w, d);
    }
  }

  // ----- a client task starts -----

  /** What OnAnswer does to the entry of the granted session it names. */
  ghost predicate EntryTaken(c: Client, c': Client, sid: string, dial: Option<Dial>) {
    || (c' == c.(outbound := c.outbound - {sid}) && sid in c.outbound &&
        (dial.Some? ==> IsDial(dial.value, SenderRole, sid)))
    || (c' == c.(inbound := c.inbound - {sid}) && sid in c.inbound &&
        (dial.Some? ==> IsDial(dial.value, ReceiverRole, sid)))
    || (c' == c && dial.None?)
  }

  lemma AnswerEntries(w: World, w': World, device: string, sid: string, dial: Option<Dial>)
    requires Entries(w) && device in w.clients && sid in w.granted && w'.granted == w.granted
    requires device in w'.clients && w'.clients == w.clients[device := w'.clients[device]]
    requires w'.dials == if dial.Some? then w.dials + [dial.value] else w.dials
    requires forall d, e ::
             d in w.clients && e in w.clients && sid in w.clients[d].outbound && sid in w.clients[e].outbound ==> d == e
    requires forall d, e ::
             d in w.clients && e in w.clients && sid in w.clients[d].inbound && sid in w.clients[e].inbound ==> d == e
    requires EntryTaken(w.clients[device], w'.clients[device], sid, dial)
    ensures Entries(w')
  {
    forall x
      ensures EntriesUsedOnce(w', x)
    {
      assert EntriesUsedOnce(w, x);
      if dial.Some? {
        DialsAppend(w.dials, dial.value, SenderRole, x);
        DialsAppend(w.dials, dial.value, ReceiverRole, x);
      }
    }
  }

  lemma AnswerTokens(w: World, i: nat, keyOk: bool)
    requires Tokens(w) && i < |w.down| && w.down[i].AnswerMsg? && w.down[i].to in w.clients
    ensures Tokens(DoReceiveAnswer(w, i, keyOk))
  {
    var m := w.down[i];
    var w' := DoReceiveAnswer(w, i, keyOk);
    HasToken(w.down, i);
    assert OneToken(w, m.sid);
    forall x
      ensures OneToken(w', x)
    {
      assert OneToken(w, x);
      CountsWithout(w.down, i, x);
    }
  }

  lemma OneDevicePerSide(cfg: Config, w: World, sid: string)
    requires Inv(cfg, w) && sid in w.granted
    ensures forall d :: d in w.clients && sid in w.clients[d].outbound ==> d == w.granted[sid].sender
    ensures forall d :: d in w.clients && sid in w.clients[d].inbound ==>
            d == w.granted[sid].receiver && w.clients[d].inbound[sid] == w.granted[sid].sender
  {
    assert GrantHonest(w, cfg.account, sid);
    forall d | d in w.clients
      ensures sid in w.clients[d].outbound ==> d == w.granted[sid].sender
      ensures sid in w.clients[d].inbound ==>
              d == w.granted[sid].receiver && w.clients[d].inbound[sid] == w.granted[sid].sender
    {
      assert ClientHonest(w, d, w.clients[d]);
    }
  }

  lemma TokenAnswerKeepsInv(cfg: Config, w: World, i: nat, keyOk: bool)
    requires Inv(cfg, w) && i < |w.down| && w.down[i].AnswerMsg? && w.down[i].to in w.clients
    requires w.down[i].accepted && w.down[i].token.Some?
    ensures DialsHonest(DoReceiveAnswer(w, i, keyOk)) && Entries(DoReceiveAnswer(w, i, keyOk))
  {
    var m := w.down[i];
    var w' := DoReceiveAnswer(w, i, keyOk);
    assert MsgHonest(w, m);
    OneDevicePerSide(cfg, w, m.sid);
    var (c, dial) := OnAnswer(w.clients[m.to], m, keyOk);
    AnswerEntries(w, w', m.to, m.sid, dial);
    forall d | d in w'.dials
      ensures DialHonest(w', d)
    {
      assert d in w.dials ==> DialHonest(w, d);
    }
  }

  lemma TokenAnswerRest(cfg: Config, w: World, i: nat, keyOk: bool)
    requires Inv(cfg, w) && i < |w.down| && w.down[i].AnswerMsg? && w.down[i].to in w.clients
    ensures var w' := DoReceiveAnswer(w, i, keyOk);
            Messages(w') && ClientsHonest(w') && Grants(cfg, w')
  {
    var w' := DoReceiveAnswer(w, i, keyOk);
    WithoutIn(w.down, i);
    forall m | m in w'.up || m in w'.down
      ensures MsgHonest(w', m)
    {
      assert MsgHonest(w, m);
    }
    forall d | d in w'.clients
      ensures ClientHonest(w', d, w'.clients[d])
    {
      assert ClientHonest(w, d, w.clients[d]);
    }
    forall x | x in w'.granted
      ensures GrantHonest(w', cfg.account, x)
    {
      assert GrantHonest(w, cfg.account, x);
    }
  }

  lemma ReceiveAnswerKeepsInv(cfg: Config, w: World, i: nat, keyOk: bool)
    requires Inv(cfg, w) && i < |w.down| && w.down[i].AnswerMsg? && w.down[i].to in w.clients
    ensures Inv(cfg, DoReceiveAnswer(w, i, keyOk))
  {
    var m := w.down[i];
    AnswerTokens(w, i, keyOk);
    if m.accepted && m.token.Some? {
      TokenAnswerKeepsInv(cfg, w, i, keyOk);
      TokenAnswerRest(cfg, w, i, keyOk);
    } else {
      WithoutIn(w.down, i);
      CalmKeepsInv(cfg, w, DoReceiveAnswer(w, i, keyOk), m.sid);
    }
  }

  // ----- the relay moves -----

  lemma NoteEndedKeeps(cfg: Config, w: World)
    requires Tokens(w) && Messages(w) && ClientsHonest(w) && Entries(w) && DialsHonest(w) && Paired(w.relay)
    requires forall sid :: sid in w.granted ==> GrantedPair(w, cfg.account, sid) && EndedOrKept(w, sid)
    ensures Inv(cfg, NoteEnded(w))
  {
    var w' := NoteEnded(w);
    forall x
      ensures OneToken(w', x) && EntriesUsedOnce(w', x)
    {
      assert OneToken(w, x) && EntriesUsedOnce(w, x);
    }
    forall m | m in w'.up || m in w'.down
      ensures MsgHonest(w', m)
    {
      assert MsgHonest(w, m);
    }
    forall d | d in w'.clients
      ensures ClientHonest(w', d, w'.clients[d])
    {
      assert ClientHonest(w, d, w.clients[d]);
    }
    forall d | d in w'.dials
      ensures DialHonest(w', d)
    {
      assert DialHonest(w, d);
    }
    forall x | x in w'.granted
      ensures GrantHonest(w', cfg.account, x)
    {
      assert GrantedPair(w, cfg.account, x) && EndedOrKept(w, x);
    }
  }

  ghost predicate GrantedPair(w: World, account: string, sid: string)
    requires sid in w.granted
  {
    sid in w.origin && SamePair(w.granted[sid], w.origin[sid].0, w.origin[sid].1, account)
  }

  /** Noted as ended, or no longer binding, or exactly as it was granted. */
  ghost predicate EndedOrKept(w: World, sid: string)
    requires sid in w.granted
  {
    sid in w.ended || !(sid in w.relay.auths && Live(w.relay, sid, w.now)) || w.relay.auths[sid] == w.granted[sid]
  }

  /** No relay call but the session's own ANSWER replaces a binding entry of the account. */
  lemma RelayKeepsGrants(cfg: Config, w: World, op: Op, sid: string)
    requires Inv(cfg, w) && sid in w.granted
    requires op.AuthorizeOp? ==> op.account != cfg.account || op.id != sid
    ensures var w1 := w.(relay := Relay.Step(w.relay, cfg.caps, Timed(w.now, op)));
            GrantedPair(w1, cfg.account, sid) && EndedOrKept(w1, sid)
  {
    assert GrantHonest(w, cfg.account, sid);
    if sid !in w.ended {
      RelayKeepsEntry(w.relay, cfg.caps, Timed(w.now, op), sid, cfg.account);
    }
  }

  lemma RelayKeepsEntry(s: RelayState, caps: Caps, t: Timed, id: string, account: string)
    requires Paired(s) && id in s.auths && Live(s, id, t.now) && s.auths[id].account == account
    requires t.op.AuthorizeOp? ==> t.op.account != account || t.op.id != id
    ensures var s' := Relay.Step(s, caps, t);
            id in s'.auths && Live(s', id, t.now) ==> s'.auths[id] == s.auths[id]
  {
    if !OwnDoing(s, t, id) {
      LiveEntryStable(s, caps, t, id);
    }
  }

  lemma OnRelayKeepsInv(cfg: Config, w: World, op: Op)
    requires Inv(cfg, w) && (op.AuthorizeOp? ==> op.account != cfg.account)
    ensures Inv(cfg, DoOnRelay(cfg, w, op))
  {
    var w1 := w.(relay := Relay.Step(w.relay, cfg.caps, Timed(w.now, op)));
    StepKeepsPaired(w.relay, cfg.caps, Timed(w.now, op));
    forall sid | sid in w1.granted
      ensures GrantedPair(w1, cfg.account, sid) && EndedOrKept(w1, sid)
    {
      RelayKeepsGrants(cfg, w, op, sid);
    }
    SameButRelay(cfg, w, w1);
    NoteEndedKeeps(cfg, w1);
  }

  lemma AdvanceKeepsInv(cfg: Config, w: World, elapsed: nat)
    requires Inv(cfg, w)
    ensures Inv(cfg, NoteEnded(w.(now := w.now + elapsed)))
  {
    var w1 := w.(now := w.now + elapsed);
    forall sid | sid in w1.granted
      ensures GrantedPair(w1, cfg.account, sid) && EndedOrKept(w1, sid)
    {
      assert GrantHonest(w, cfg.account, sid);
    }
    SameButRelay(cfg, w, w1);
    NoteEndedKeeps(cfg, w1);
  }

  lemma SameButRelay(cfg: Config, w: World, w1: World)
    requires Inv(cfg, w) && w1 == w.(relay := w1.relay, now := w1.now)
    ensures Tokens(w1) && Messages(w1) && ClientsHonest(w1) && Entries(w1) && DialsHonest(w1)
  {
    forall x
      ensures OneToken(w1, x) && EntriesUsedOnce(w1, x)
    {
      assert OneToken(w, x) && EntriesUsedOnce(w, x);
    }
    forall m | m in w1.up || m in w1.down
      ensures MsgHonest(w1, m)
    {
      assert MsgHonest(w, m);
    }
    forall d | d in w1.clients
      ensures ClientHonest(w1, d, w1.clients[d])
    {
      assert ClientHonest(w, d, w.clients[d]);
    }
    forall d | d in w1.dials
      ensures DialHonest(w1, d)
    {
      assert DialHonest(w, d);
    }
  }

  // ----- the server handles an ANSWER -----

  /** A refusal by the receiver is passed on; a refused authorization tells both sides. */
  lemma RefusedAnswerKeepsInv(cfg: Config, w: World, i: nat, random: Option<string>)
    requires Inv(cfg, w) && i < |w.up| && w.up[i].AnswerMsg?
    requires ServeAnswer(w.relay, cfg.account, cfg.caps.transfers, w.up[i], random, w.now).0 == w.relay
    requires w.up[i].accepted ==>
             ServeAnswer(w.relay, cfg.account, cfg.caps.transfers, w.up[i], random, w.now).1[0].FailureMsg?
    ensures Inv(cfg, DoServeAnswer(cfg, w, i, random))
  {
    assert MsgHonest(w, w.up[i]);
    ServeAnswerTokens(cfg, w, i, random);
    RefusedIsCalm(cfg, w, i, random);
    CalmKeepsInv(cfg, w, DoServeAnswer(cfg, w, i, random), w.up[i].sid);
  }

  lemma RefusedIsCalm(cfg: Config, w: World, i: nat, random: Option<string>)
    requires i < |w.up| && w.up[i].AnswerMsg?
    requires ServeAnswer(w.relay, cfg.account, cfg.caps.transfers, w.up[i], random, w.now).0 == w.relay
    requires w.up[i].accepted ==>
             ServeAnswer(w.relay, cfg.account, cfg.caps.transfers, w.up[i], random, w.now).1[0].FailureMsg?
    ensures Calm(w, DoServeAnswer(cfg, w, i, random), w.up[i].sid)
  {
    WithoutIn(w.up, i);
  }

  lemma TwoCounts(s: seq<Msg>, out: seq<Msg>, x: string)
    requires |out| == 2
    ensures Offers(s + out, x) == Offers(s, x) + Count(IsOffer(out[0], x)) + Count(IsOffer(out[1], x))
    ensures Accepts(s + out, x) == Accepts(s, x) + Count(IsAccept(out[0], x)) + Count(IsAccept(out[1], x))
  {
    CountsAppend(s, out[0], x);
    CountsAppend(s + [out[0]], out[1], x);
    assert s + out == s + [out[0]] + [out[1]];
  }

  lemma ServeAnswerTokens(cfg: Config, w: World, i: nat, random: Option<string>)
    requires Tokens(w) && i < |w.up| && w.up[i].AnswerMsg? && w.up[i].token.None?
    requires w.up[i].accepted ==> w.up[i].sid in w.origin
    ensures Tokens(DoServeAnswer(cfg, w, i, random))
    ensures w.up[i].accepted ==> w.up[i].sid !in w.granted
  {
    var m := w.up[i];
    HasToken(w.up, i);
    assert OneToken(w, m.sid);
    forall x
      ensures OneToken(DoServeAnswer(cfg, w, i, random), x)
    {
      ServeAnswerToken(cfg, w, i, random, x);
    }
  }

  /** What the server sends in reply to an accept is neither an offer nor a bare accept. */
  lemma RepliesAreNoTokens(cfg: Config, w: World, m: Msg, random: Option<string>, x: string)
    requires m.AnswerMsg? && m.accepted
    ensures var out := ServeAnswer(w.relay, cfg.account, cfg.caps.transfers, m, random, w.now).1;
            && |out| == 2
            && !IsOffer(out[0], x) && !IsOffer(out[1], x) && !IsAccept(out[0], x) && !IsAccept(out[1], x)
  {
  }

  lemma ServedCounts(w: World, i: nat, out: seq<Msg>, place: Place, x: string)
    requires OneToken(w, x) && i < |w.up| && w.up[i].AnswerMsg? && w.up[i].token.None? && OneToken(w, w.up[i].sid)
    requires var m := w.up[i];
             if m.accepted then
               && |out| == 2 && (place == Granted || place == Over)
               && !IsOffer(out[0], x) && !IsOffer(out[1], x) && !IsAccept(out[0], x) && !IsAccept(out[1], x)
             else out == [m]
    ensures var m := w.up[i];
            Counted(Without(w.up, i), w.down + out, if m.accepted && x == m.sid then place else PlaceOf(w, x), x)
  {
    HasToken(w.up, i);
    CountsWithout(w.up, i, x);
    if w.up[i].accepted {
      TwoCounts(w.down, out, x);
    } else {
      CountsAppend(w.down, w.up[i], x);
    }
  }

  lemma ServeAnswerToken(cfg: Config, w: World, i: nat, random: Option<string>, x: string)
    requires Tokens(w) && i < |w.up| && w.up[i].AnswerMsg? && w.up[i].token.None?
    requires w.up[i].accepted ==> w.up[i].sid in w.origin
    ensures OneToken(DoServeAnswer(cfg, w, i, random), x)
  {
    var m := w.up[i];
    var out := ServeAnswer(w.relay, cfg.account, cfg.caps.transfers, m, random, w.now).1;
    HasToken(w.up, i);
    assert OneToken(w, m.sid) && OneToken(w, x);
    if m.accepted {
      RepliesAreNoTokens(cfg, w, m, random, x);
    }
    ServedCounts(w, i, out, if m.accepted && !out[0].FailureMsg? then Granted else Over, x);
  }

  lemma GrantedAnswerKeepsInv(cfg: Config, w: World, i: nat, random: Option<string>)
    requires Inv(cfg, w) && i < |w.up| && w.up[i].AnswerMsg? && w.up[i].accepted
    requires !ServeAnswer(w.relay, cfg.account, cfg.caps.transfers, w.up[i], random, w.now).1[0].FailureMsg?
    ensures Inv(cfg, DoServeAnswer(cfg, w, i, random))
  {
    var m := w.up[i];
    assert MsgHonest(w, m);
    var (relay, out) := ServeAnswer(w.relay, cfg.account, cfg.caps.transfers, m, random, w.now);
    var op := AuthorizeOp(m.sid, m.to, m.from, cfg.account, TTL, random);
    assert relay == Relay.Step(w.relay, cfg.caps, Timed(w.now, op));
    StepKeepsPaired(w.relay, cfg.caps, Timed(w.now, op));
    ServeAnswerTokens(cfg, w, i, random);
    var w1 := w.(up := Without(w.up, i), down := w.down + out, relay := relay,
                 place := w.place[m.sid := Granted], granted := w.granted[m.sid := relay.auths[m.sid]]);
    assert NoteEnded(w1) == DoServeAnswer(cfg, w, i, random);
    GrantedTokens(w1);
    GrantedRest(cfg, w, w1, i, out);
    forall sid | sid in w1.granted
      ensures GrantedPair(w1, cfg.account, sid) && EndedOrKept(w1, sid)
    {
      if sid != m.sid {
        RelayKeepsGrants(cfg, w, op, sid);
      }
    }
    NoteEndedKeeps(cfg, w1);
  }

  lemma GrantedTokens(w1: World)
    requires Tokens(NoteEnded(w1))
    ensures Tokens(w1)
  {
    forall x
      ensures OneToken(w1, x)
    {
      assert OneToken(NoteEnded(w1), x);
    }
  }

  lemma GrantedRest(cfg: Config, w: World, w1: World, i: nat, out: seq<Msg>)
    requires Inv(cfg, w) && i < |w.up| && w.up[i].AnswerMsg? && w.up[i].accepted && w.up[i].sid !in w.granted
    requires var m := w.up[i];
             && m.sid in w1.granted
             && w1 == w.(up := Without(w.up, i), down := w.down + out, relay := w1.relay, place := w1.place,
                         granted := w.granted[m.sid := w1.granted[m.sid]])
             && w1.granted[m.sid].receiver == m.from
             && out == [m.(to := m.from, token := Some(w1.granted[m.sid].token)),
                 m.(token := Some(w1.granted[m.sid].token))]
    ensures Messages(w1) && ClientsHonest(w1) && Entries(w1) && DialsHonest(w1)
  {
    WithoutIn(w.up, i);
    forall m | m in w1.up || m in w1.down
      ensures MsgHonest(w1, m)
    {
      assert m in w.up || m in w.down || m in out;
      assert m in w.up || m in w.down ==> MsgHonest(w, m);
    }
    forall d | d in w1.clients
      ensures ClientHonest(w1, d, w1.clients[d])
    {
      assert ClientHonest(w, d, w.clients[d]);
    }
    forall x
      ensures EntriesUsedOnce(w1, x)
    {
      assert EntriesUsedOnce(w, x);
    }
    forall d | d in w1.dials
      ensures DialHonest(w1, d)
    {
      assert DialHonest(w, d);
    }
  }

  lemma ServeAnswerKeepsInv(cfg: Config, w: World, i: nat, random: Option<string>)
    requires Inv(cfg, w) && i < |w.up| && w.up[i].AnswerMsg?
    ensures Inv(cfg, DoServeAnswer(cfg, w, i, random))
  {
    var (relay, out) := ServeAnswer(w.relay, cfg.account, cfg.caps.transfers, w.up[i], random, w.now);
    if w.up[i].accepted && !out[0].FailureMsg? {
      GrantedAnswerKeepsInv(cfg, w, i, random);
    } else {
      RefusedAnswerKeepsInv(cfg, w, i, random);
    }
  }

  // ----- runs -----

  lemma StepKeepsInv(cfg: Config, w: World, step: Step)
    requires Inv(cfg, w) && CanStep(cfg, w, step)
    ensures Inv(cfg, Next(cfg, w, step))
  {
    match step
    case Dispatch(device, to, sid) => DispatchKeepsInv(cfg, w, device, to, sid);
    case ServeOffer(i, withinLimits) => ServeOfferKeepsInv(cfg, w, i, withinLimits);
    case ServeAnswerAt(i, random) => ServeAnswerKeepsInv(cfg, w, i, random);
    case ReceiveOffer(i, decision) => ReceiveOfferKeepsInv(cfg, w, i, decision);
    case Respond(device, sid, accept) => RespondKeepsInv(cfg, w, device, sid, accept);
    case ReceiveAnswer(i, keyOk) => ReceiveAnswerKeepsInv(cfg, w, i, keyOk);
    case ReceiveFailure(i) => ReceiveFailureKeepsInv(cfg, w, i);
    case LoseUp(i) => LoseUpKeepsInv(cfg, w, i);
    case LoseDown(i) => LoseDownKeepsInv(cfg, w, i);
    case PeerFails(sid, to) => PeerFailsKeepsInv(cfg, w, sid, to);
    case Advance(elapsed) => AdvanceKeepsInv(cfg, w, elapsed);
    case OnRelay(op) => OnRelayKeepsInv(cfg, w, op);
  }

  lemma {:induction false} RunKeepsInv(cfg: Config, devices: set<string>, relay: RelayState, now: int, run: seq<Step>)
    requires Paired(relay)
    ensures Inv(cfg, Exec(cfg, Initial(devices, relay, now), run))
  {
    if run == [] {
      InitialInv(cfg, devices, relay, now);
    } else {
      RunKeepsInv(cfg, devices, relay, now, run[..|run| - 1]);
      var before := Exec(cfg, Initial(devices, relay, now), run[..|run| - 1]);
      if CanStep(cfg, before, run[|run| - 1]) {
        StepKeepsInv(cfg, before, run[|run| - 1]);
      }
    }
  }

  // ----- theorems -----

  lemma {:induction false} DialsAtMost(s: seq<Dial>, role: Role, sid: string, i: nat, j: nat)
    requires i < j < |s| && IsDial(s[i], role, sid) && IsDial(s[j], role, sid)
    ensures Dials(s, role, sid) >= 2
  {
    if j == |s| - 1 {
      DialsAtLeastOne(s[..j], role, sid, i);
    } else {
      DialsAtMost(s[..|s| - 1], role, sid, i, j);
    }
  }

  lemma {:induction false} DialsAtLeastOne(s: seq<Dial>, role: Role, sid: string, i: nat)
    requires i < |s| && IsDial(s[i], role, sid)
    ensures Dials(s, role, sid) >= 1
  {
    if i < |s| - 1 {
      DialsAtLeastOne(s[..|s| - 1], role, sid, i);
    }
  }

  /** Over any interleaving each side of a session starts its data-plane task at most once. */
  lemma StartsAtMostOnce(cfg: Config, devices: set<string>, relay: RelayState, now: int, run: seq<Step>, i: nat, j: nat)
    requires Paired(relay)
    requires var dials := Exec(cfg, Initial(devices, relay, now), run).dials; i < j < |dials|
    ensures var dials := Exec(cfg, Initial(devices, relay, now), run).dials;
            dials[i].sid != dials[j].sid || dials[i].role != dials[j].role
  {
    RunKeepsInv(cfg, devices, relay, now, run);
    var w := Exec(cfg, Initial(devices, relay, now), run);
    assert EntriesUsedOnce(w, w.dials[i].sid);
    assert DialHonest(w, w.dials[i]);
    if w.dials[i].sid == w.dials[j].sid && w.dials[i].role == w.dials[j].role {
      DialsAtMost(w.dials, w.dials[i].role, w.dials[i].sid, i, j);
    }
  }

  /** Both sides of a session carry the same token and name each other. */
  lemma SidesAgree(cfg: Config, devices: set<string>, relay: RelayState, now: int, run: seq<Step>, a: Dial, b: Dial)
    requires Paired(relay)
    requires var w := Exec(cfg, Initial(devices, relay, now), run); a in w.dials && b in w.dials
    requires a.sid == b.sid && a.role == SenderRole && b.role == ReceiverRole
    ensures a.token == b.token && a.device == b.target && a.target == b.device
  {
    RunKeepsInv(cfg, devices, relay, now, run);
    var w := Exec(cfg, Initial(devices, relay, now), run);
    assert DialHonest(w, a) && DialHonest(w, b);
  }

  /** What a client dials with is what the data plane accepts, until the authorization first ended. */
  lemma DialsAreAccepted(cfg: Config, devices: set<string>, relay: RelayState, now: int, run: seq<Step>, d: Dial)
    requires Paired(relay)
    requires d in Exec(cfg, Initial(devices, relay, now), run).dials
    ensures var w := Exec(cfg, Initial(devices, relay, now), run);
            d.sid !in w.ended ==> Check(w.relay, d.sid, d.role, d.device, d.target, d.token, w.now) == None
  {
    RunKeepsInv(cfg, devices, relay, now, run);
    var w := Exec(cfg, Initial(devices, relay, now), run);
    assert DialHonest(w, d);
    assert GrantHonest(w, cfg.account, d.sid);
  }

  /**
   An authorization first ends only by expiry without a pipe, its participants' teardown, or the sweep of its idle
   pipe.
   */
  lemma EndsOnlyBy(cfg: Config, w: World, step: Step, sid: string)
    requires Inv(cfg, w) && CanStep(cfg, w, step)
    requires sid in w.granted && sid !in w.ended && sid in Next(cfg, w, step).ended
    ensures || (step.Advance? && w.now + step.elapsed >= w.granted[sid].expiresAt && sid !in w.relay.pipes)
            || (step.OnRelay? && step.op.TeardownOp? && step.op.id == sid && step.op.account == cfg.account &&
                (step.op.device == w.granted[sid].sender || step.op.device == w.granted[sid].receiver))
            || (step.OnRelay? && step.op.SweepOp? && sid in IdleSet(w.relay, step.op.timeout, w.now))
  {
    assert GrantHonest(w, cfg.account, sid);
    match step
    case Advance(_) =>
    case OnRelay(op) =>
      if !OwnDoing(w.relay, Timed(w.now, op), sid) {
        LiveEntryStable(w.relay, cfg.caps, Timed(w.now, op), sid);
      }
    case ServeAnswerAt(i, random) => OtherAnswerEndsNothing(cfg, w, i, random, sid);
    case Dispatch(_, _, _) =>
    case ServeOffer(_, _) =>
    case ReceiveOffer(_, _) =>
    case Respond(_, _, _) =>
    case ReceiveAnswer(_, _) =>
    case ReceiveFailure(_) =>
    case LoseUp(_) =>
    case LoseDown(_) =>
    case PeerFails(_, _) =>
  }

  lemma OtherAnswerEndsNothing(cfg: Config, w: World, i: nat, random: Option<string>, sid: string)
    requires Inv(cfg, w) && i < |w.up| && w.up[i].AnswerMsg?
    requires sid in w.granted && sid !in w.ended
    ensures sid !in DoServeAnswer(cfg, w, i, random).ended
  {
    var m := w.up[i];
    assert MsgHonest(w, m) && GrantHonest(w, cfg.account, sid);
    ServeAnswerTokens(cfg, w, i, random);
    if m.accepted {
      var op := AuthorizeOp(m.sid, m.to, m.from, cfg.account, TTL, random);
      assert !OwnDoing(w.relay, Timed(w.now, op), sid);
      LiveEntryStable(w.relay, cfg.caps, Timed(w.now, op), sid);
    }
  }

  // ----- the handshake can complete -----

  lemma Extend(cfg: Config, start: World, run: seq<Step>, step: Step)
    requires CanStep(cfg, Exec(cfg, start, run), step)
    ensures Exec(cfg, start, run + [step]) == Next(cfg, Exec(cfg, start, run), step)
  {
    assert (run + [step])[..|run|] == run;
  }

  /** The offer of `sid` from `a` was accepted by `b`, and nothing else is on the way. */
  ghost predicate Accepted(w: World, relay: RelayState, now: int, a: string, b: string, sid: string) {
    && a in w.clients && b in w.clients
    && sid in w.clients[a].outbound
    && sid !in w.clients[b].outbound && sid in w.clients[b].inbound && w.clients[b].inbound[sid] == a
    && w.up == [AnswerMsg(sid, b, a, true, None)] && w.down == []
    && w.relay == relay && w.now == now && w.dials == [] && w.granted == map[] && w.ended == {}
  }

  lemma OfferArrives(cfg: Config, devices: set<string>, relay: RelayState, now: int, a: string, b: string, sid: string)
    returns (run: seq<Step>)
    requires a in devices && b in devices && a != b
    ensures var w := Exec(cfg, Initial(devices, relay, now), run);
            && w.clients == Initial(devices, relay, now).clients[a := Client({sid}, map[], map[])]
            && w.down == [OfferMsg(sid, a, b)] && w.up == []
            && w.relay == relay && w.now == now && w.dials == [] && w.granted == map[] && w.ended == {}
    ensures Respond(b, sid, true) !in run
  {
    var start := Initial(devices, relay, now);
    Extend(cfg, start, [], Dispatch(a, b, sid));
    var run1 := [] + [Dispatch(a, b, sid)];
    assert start.clients[a].(outbound := {} + {sid}) == Client({sid}, map[], map[]);
    assert Exec(cfg, start, run1).up == [OfferMsg(sid, a, b)];
    Extend(cfg, start, run1, ServeOffer(0, true));
    run := run1 + [ServeOffer(0, true)];
  }

  /** The offer is accepted at once, or after the user was asked. */
  lemma OfferReaches(cfg: Config, devices: set<string>, relay: RelayState, now: int, a: string, b: string, sid: string,
                     asked: bool)
    returns (run: seq<Step>)
    requires a in devices && b in devices && a != b
    ensures Accepted(Exec(cfg, Initial(devices, relay, now), run), relay, now, a, b, sid)
    ensures asked <==> Respond(b, sid, true) in run
  {
    var start := Initial(devices, relay, now);
    run := OfferArrives(cfg, devices, relay, now, a, b, sid);
    var decision := if asked then Ask else AutoAccept;
    Extend(cfg, start, run, ReceiveOffer(0, decision));
    run := run + [ReceiveOffer(0, decision)];
    if asked {
      assert Exec(cfg, start, run).clients[b].confirm == map[sid := a];
      Extend(cfg, start, run, Respond(b, sid, true));
      run := run + [Respond(b, sid, true)];
    }
  }

  /** The server has answered both sides with the same token. */
  ghost predicate Answered(w: World, a: string, b: string, sid: string, token: string) {
    && a in w.clients && b in w.clients
    && sid in w.clients[a].outbound
    && sid !in w.clients[b].outbound && sid in w.clients[b].inbound && w.clients[b].inbound[sid] == a
    && w.down == [AnswerMsg(sid, b, b, true, Some(token)), AnswerMsg(sid, b, a, true, Some(token))]
    && w.dials == [] && w.ended == {}
  }

  lemma GrantStep(cfg: Config, w: World, relay: RelayState, now: int, a: string, b: string, sid: string, token: string)
    requires Accepted(w, relay, now, a, b, sid) && sid !in relay.auths
    requires cfg.caps.transfers <= 0 || InFlight(relay, cfg.account, sid, now) < cfg.caps.transfers
    ensures Answered(DoServeAnswer(cfg, w, 0, Some(token)), a, b, sid, token)
  {
    var (s', r, _) := Authorize(relay, sid, a, b, cfg.account, TTL, cfg.caps.transfers, Some(token), now);
    assert r == Ok(token) && s'.auths[sid].expiresAt == now + TTL;
  }

  lemma BothDial(cfg: Config, w: World, a: string, b: string, sid: string, token: string)
    requires Answered(w, a, b, sid, token) && a != b
    ensures var w1 := DoReceiveAnswer(w, 0, true);
            && a in w1.clients && w1.down == [AnswerMsg(sid, b, a, true, Some(token))]
            && DoReceiveAnswer(w1, 0, true).dials ==
                [Dial(ReceiverRole, sid, b, a, token), Dial(SenderRole, sid, a, b, token)]
            && DoReceiveAnswer(w1, 0, true).ended == {}
  {
  }

  /**
   Nothing above is vacuous: whenever the relay has room, some run brings both sides to dial with the server's token,
   both when the offer is accepted at once and when the user is asked and accepts.
   */
  lemma HandshakeCanComplete(cfg: Config, devices: set<string>, relay: RelayState, now: int, a: string, b: string,
                             sid: string, token: string, asked: bool)
    returns (run: seq<Step>)
    requires a in devices && b in devices && a != b
    requires sid !in relay.auths &&
             (cfg.caps.transfers <= 0 || InFlight(relay, cfg.account, sid, now) < cfg.caps.transfers)
    ensures var w := Exec(cfg, Initial(devices, relay, now), run);
            && w.dials == [Dial(ReceiverRole, sid, b, a, token), Dial(SenderRole, sid, a, b, token)]
            && w.ended == {}
    ensures asked <==> Respond(b, sid, true) in run
  {
    var start := Initial(devices, relay, now);
    var run3 := OfferReaches(cfg, devices, relay, now, a, b, sid, asked);
    var w3 := Exec(cfg, start, run3);
    GrantStep(cfg, w3, relay, now, a, b, sid, token);
    Extend(cfg, start, run3, ServeAnswerAt(0, Some(token)));
    var run4 := run3 + [ServeAnswerAt(0, Some(token))];
    BothDial(cfg, Exec(cfg, start, run4), a, b, sid, token);
    Extend(cfg, start, run4, ReceiveAnswer(0, true));
    var run5 := run4 + [ReceiveAnswer(0, true)];
    Extend(cfg, start, run5, ReceiveAnswer(0, true));
    run := run5 + [ReceiveAnswer(0, true)];
  }
}
