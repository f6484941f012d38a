/** The clients' router and the server's ANSWER case in place, each proved equal to the handshake's functions. */
module SignalRouting {
  import opened Wrappers
  import opened Relay
  import opened Handshake

  /** Seconds an offer waits for the user. */
  const CONFIRM_TIMEOUT: int := 30

  datatype ConfirmPending = ConfirmPending(fromDevice: string, receivedAt: int)

  class SignalRouter {
    const device: string
    var pendingOutbound: set<string>
    var pendingInbound: map<string, string>
    var pendingConfirm: map<string, ConfirmPending>

    ghost function View(): Client
      reads this
    {
      Client(pendingOutbound, pendingInbound, map sid | sid in pendingConfirm :: pendingConfirm[sid].fromDevice)
    }

    constructor (self: string)
      ensures device == self && View() == Client({}, map[], map[])
    {
      device, pendingOutbound, pendingInbound, pendingConfirm := self, {}, map[], map[];
    }

    /** accept_offer: the entry is made before the answer leaves. */
    method AcceptOffer(sid: string, sender: string) returns (answer: Msg)
      modifies this`pendingInbound
      ensures pendingInbound == old(pendingInbound)[sid := sender]
      ensures answer == AnswerMsg(sid, device, sender, true, None)
    {
      pendingInbound := pendingInbound[sid := sender];
      answer := AnswerMsg(sid, device, sender, true, None);
    }

    /** The OFFER branch. */
    method HandleOffer(m: Msg, decision: Decision, now: int) returns (out: seq<Msg>)
      requires m.OfferMsg? && m.to == device
      modifies this`pendingInbound, this`pendingConfirm
      ensures (View(), out) == OnOffer(old(View()), m, decision)
      ensures decision.Ask? ==> m.sid in pendingConfirm && pendingConfirm[m.sid].receivedAt == now
    {
      ghost var before := View();
      match decision {
        case KeyMismatch =>
          out := [AnswerMsg(m.sid, device, m.from, false, None)];
        case AutoAccept =>
          var answer := AcceptOffer(m.sid, m.from);
          out := [answer];
        case Ask =>
          pendingConfirm := pendingConfirm[m.sid := ConfirmPending(m.from, now)];
          assert View().confirm == before.confirm[m.sid := m.from];
          out := [];
      }
    }

    /** respond_pending_offer: an error, and nothing done, when the session is not waiting. */
    method RespondPendingOffer(sid: string, accept: bool) returns (r: Result<seq<Msg>, string>)
      modifies this`pendingInbound, this`pendingConfirm
      ensures r.Ok? <==> old(sid in pendingConfirm)
      ensures r.Ok? ==> (View(), r.value) == OnRespond(old(View()), device, sid, accept)
      ensures r.Err? ==> View() == old(View())
    {
      if sid !in pendingConfirm {
        return Err(sid);
      }
      var entry := pendingConfirm[sid];
      ghost var before := View();
      pendingConfirm := pendingConfirm - {sid};
      assert View().confirm == before.confirm - {sid};
      var answer := AnswerMsg(sid, device, entry.fromDevice, false, None);
      if accept {
        answer := AcceptOffer(sid, entry.fromDevice);
      }
      r := Ok([answer]);
    }

    /** The watchdog: refuses the session's waiting offer once that offer itself has waited long enough. */
    method ConfirmTimeout(sid: string, now: int) returns (out: seq<Msg>)
      modifies this`pendingConfirm
      ensures var due := old(sid in pendingConfirm && now - pendingConfirm[sid].receivedAt >= 30);
              (View(), out) == if due then OnRespond(old(View()), device, sid, false) else (old(View()), [])
    {
      if sid !in pendingConfirm || now - pendingConfirm[sid].receivedAt < CONFIRM_TIMEOUT {
        return [];
      }
      ghost var before := View();
      var sender := pendingConfirm[sid].fromDevice;
      pendingConfirm := pendingConfirm - {sid};
      assert View().confirm == before.confirm - {sid};
      out := [AnswerMsg(sid, device, sender, false, None)];
    }

    /** The ANSWER branch. */
    method HandleAnswer(m: Msg, keyOk: bool) returns (dial: Option<Dial>)
      requires m.AnswerMsg? && m.to == device
      modifies this`pendingOutbound, this`pendingInbound
      ensures (View(), dial) == OnAnswer(old(View()), m, keyOk)
    {
      if !m.accepted {
        pendingOutbound := pendingOutbound - {m.sid};
        pendingInbound := pendingInbound - {m.sid};
        return None;
      }
      if m.token.None? {
        return None;
      }
      if m.sid in pendingOutbound {
        pendingOutbound := pendingOutbound - {m.sid};
        return if keyOk then Some(Dial(SenderRole, m.sid, device, m.from, m.token.value)) else None;
      }
      if m.sid in pendingInbound {
        var sender := pendingInbound[m.sid];
        pendingInbound := pendingInbound - {m.sid};
        return if keyOk then Some(Dial(ReceiverRole, m.sid, device, sender, m.token.value)) else None;
      }
      return None;
    }

    /** The FAILURE branch releases both maps. */
    method HandleFailure(sid: string)
      modifies this`pendingOutbound, this`pendingInbound
      ensures View() == OnFailure(old(View()), sid)
    {
      pendingOutbound := pendingOutbound - {sid};
      pendingInbound := pendingInbound - {sid};
    }
  }

  /** The control server's ANSWER case over the relay manager; `device` is the connection's own, the receiver. */
  method HandleServerAnswer(manager: RelayManager, account: string, limit: int, m: Msg, random: Option<string>,
                            now: int)
    returns (out: seq<Msg>)
    requires manager.Valid() && m.AnswerMsg?
    modifies manager`authSessions
    ensures manager.Valid()
    ensures (manager.View(), out) == ServeAnswer(old(manager.View()), account, limit, m, random, now)
  {
    if m.accepted {
      var r, inFlight := manager.AuthorizeSessionIfUnderLimit(m.sid, m.to, m.from, account, TTL, limit, random, now);
      if r.Err? {
        return [FailureMsg(m.sid, m.from), FailureMsg(m.sid, m.to)];
      }
      var echo := AnswerMsg(m.sid, m.from, m.from, m.accepted, Some(r.value));
      var granted := AnswerMsg(m.sid, m.from, m.to, m.accepted, Some(r.value));
      return [echo, granted];
    }
    return [m];
  }
}
