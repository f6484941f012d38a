/**
 The sender's main loop as steps on the window, with a tally of the work done, and the loop itself
 as a method over the window class.
 */
module SenderLoop {
  import opened Sets
  import opened SlidingWindows

  const WINDOW_SIZE: nat := 2

  /** `times[k]` is how often chunk `k` was handed to the socket. */
  datatype Sender = Sender(window: Window, next: nat, times: seq<nat>, newAcks: nat, retryIncrements: nat)

  datatype Event = Send(now: nat) | GotAck(pos: nat, now: nat) | GotNack(pos: nat, now: nat) | Tick(now: nat)

  function Start(total: nat): Sender {
    Sender(Fresh(total, WINDOW_SIZE), 0, [], 0, 0)
  }

  /** What the loop head and the event's own guard allow. */
  predicate Enabled(s: Sender, e: Event) {
    && !Complete(s.window) && !RetriesExhausted(s.window)
    && match e
       case Send(_) => CanSend(s.window, s.next)
       case GotAck(pos, _) => pos < s.window.total
       case GotNack(pos, _) => pos < s.window.total
       case Tick(_) => true
  }

  function Raise(times: seq<nat>, chosen: set<nat>): (r: seq<nat>)
    ensures |r| == |times|
  {
    seq(|times|, k requires 0 <= k < |times| => if k in chosen then times[k] + 1 else times[k])
  }

  function Apply(s: Sender, e: Event): Sender {
    match e
    case Send(now) =>
      s.(window := Sent(s.window, s.next, now), next := s.next + 1, times := s.times + [1])
    case GotAck(pos, now) =>
      s.(window := Acked(s.window, pos, now), newAcks := s.newAcks + if pos in s.window.acked then 0 else 1)
    case GotNack(pos, now) =>
      s.(window := Nacked(s.window, pos, now),
         times := Raise(s.times, if NackRetransmits(s.window, pos) then {pos} else {}),
         retryIncrements := s.retryIncrements + if pos in s.window.inFlight then 1 else 0)
    case Tick(now) =>
      s.(window := TimedOut(s.window, now),
         times := Raise(s.times, Retransmits(s.window, now)),
         retryIncrements := s.retryIncrements + |LateSet(s.window, now)|)
  }

  function Exec(s: Sender, run: seq<Event>): Sender {
    if run == [] then s else Apply(Exec(s, run[..|run| - 1]), run[|run| - 1])
  }

  predicate Feasible(s: Sender, run: seq<Event>) {
    run == [] || (Feasible(s, run[..|run| - 1]) && Enabled(Exec(s, run[..|run| - 1]), run[|run| - 1]))
  }

  // ----- the invariant -----

  function Extra(times: seq<nat>): int {
    if times == [] then 0 else Extra(times[..|times| - 1]) + times[|times| - 1] - 1
  }

  ghost predicate Inv(s: Sender) {
    && Tracks(s.window, s.next)
    && s.window.size == WINDOW_SIZE
    && |s.times| == s.next
    && (forall k :: 0 <= k < s.next ==> 1 <= s.times[k] <= 1 + MAX_RETRIES)
    && (forall k :: k in s.window.inFlight ==> s.times[k] == 1 + s.window.inFlight[k].retries)
    && s.newAcks == |s.window.acked|
    && s.retryIncrements == Extra(s.times)
  }

  lemma {:induction false} ExtraOfRaise(times: seq<nat>, chosen: set<nat>)
    requires forall k :: k in chosen ==> k < |times|
    ensures Extra(Raise(times, chosen)) == Extra(times) + |chosen|
  {
    var r := Raise(times, chosen);
    if times == [] {
      assert chosen == {};
    } else {
      var n := |times| - 1;
      ExtraOfRaise(times[..n], chosen - {n});
      assert r[..n] == Raise(times[..n], chosen - {n});
      if n in chosen {
        assert |chosen| == |chosen - {n}| + 1;
      } else {
        assert chosen - {n} == chosen;
      }
    }
  }

  lemma SendKeepsInv(s: Sender, now: nat)
    requires Inv(s) && CanSend(s.window, s.next)
    ensures Inv(Apply(s, Send(now)))
  {
    SentTracks(s.window, s.next, now);
    assert (s.times + [1])[..s.next] == s.times;
  }

  lemma AckKeepsInv(s: Sender, pos: nat, now: nat)
    requires Inv(s) && pos < s.window.total
    ensures Inv(Apply(s, GotAck(pos, now)))
  {
    AckedTracks(s.window, s.next, pos, now);
    assert pos in s.window.acked ==> s.window.acked + {pos} == s.window.acked;
  }

  lemma NackKeepsInv(s: Sender, pos: nat, now: nat)
    requires Inv(s) && !RetriesExhausted(s.window)
    ensures Inv(Apply(s, GotNack(pos, now)))
  {
    NackedTracks(s.window, s.next, pos, now);
    ExtraOfRaise(s.times, if NackRetransmits(s.window, pos) then {pos} else {});
  }

  lemma TickKeepsInv(s: Sender, now: nat)
    requires Inv(s) && !RetriesExhausted(s.window)
    ensures Inv(Apply(s, Tick(now)))
  {
    TimedOutTracks(s.window, s.next, now);
    assert Retransmits(s.window, now) == LateSet(s.window, now);
    ExtraOfRaise(s.times, LateSet(s.window, now));
  }

  lemma StepKeepsInv(s: Sender, e: Event)
    requires Inv(s) && Enabled(s, e)
    ensures Inv(Apply(s, e))
  {
    match e
    case Send(now) => SendKeepsInv(s, now);
    case GotAck(pos, now) => AckKeepsInv(s, pos, now);
    case GotNack(pos, now) => NackKeepsInv(s, pos, now);
    case Tick(now) => TickKeepsInv(s, now);
  }

  lemma {:induction false} RunKeepsInv(total: nat, run: seq<Event>)
    requires Feasible(Start(total), run)
    ensures Inv(Exec(Start(total), run)) && Exec(Start(total), run).window.total == total
  {
    if run == [] {
      FreshTracks(total, WINDOW_SIZE);
    } else {
      RunKeepsInv(total, run[..|run| - 1]);
      StepKeepsInv(Exec(Start(total), run[..|run| - 1]), run[|run| - 1]);
    }
  }

  // ----- the work measure -----

  lemma {:induction false} ExtraBound(times: seq<nat>, bound: nat)
    requires forall k :: 0 <= k < |times| ==> times[k] <= 1 + bound
    ensures Extra(times) <= bound * |times|
  {
    if times == [] {
    } else {
      ExtraBound(times[..|times| - 1], bound);
      assert bound * |times| == bound * (|times| - 1) + bound;
    }
  }

  /**
   Over any run, each chunk goes out at most 1 + MAX_RETRIES times and all productive events together are at most 7
   per chunk.
   */
  lemma WorkBound(total: nat, run: seq<Event>)
    requires Feasible(Start(total), run)
    ensures var s := Exec(Start(total), run);
            && (forall k :: 0 <= k < |s.times| ==> s.times[k] <= 1 + MAX_RETRIES)
            && s.next + s.newAcks + s.retryIncrements <= (2 + MAX_RETRIES) * total
            && MIN_RTO <= s.window.rtt.rto <= MAX_RTO
  {
    RunKeepsInv(total, run);
    var s := Exec(Start(total), run);
    ExtraBound(s.times, MAX_RETRIES);
    BelowSize(s.window.acked, total);
  }

  /** The counters move exactly on productive events, so the bound above bounds the events themselves. */
  lemma ProductiveEventsAreCounted(s: Sender, e: Event)
    requires Inv(s) && Enabled(s, e)
    ensures var s' := Apply(s, e);
            var work, work' := s.next + s.newAcks + s.retryIncrements, s'.next + s'.newAcks + s'.retryIncrements;
            && work <= work'
            && (s'.times != s.times ==> work < work')
            && (s'.window.acked != s.window.acked ==> work < work')
  {
    match e
    case Tick(now) =>
      if LateSet(s.window, now) == {} {
        assert Retransmits(s.window, now) == {};
        assert Raise(s.times, {}) == s.times;
      }
    case GotNack(pos, now) =>
      if pos !in s.window.inFlight {
        assert Raise(s.times, {}) == s.times;
      }
    case GotAck(pos, now) =>
      if pos in s.window.acked {
        assert s.window.acked + {pos} == s.window.acked;
      }
    case Send(_) =>
  }

  /** The smoothed estimate, without the timeout that also backs off. */
  predicate SameEstimate(a: Window, b: Window) {
    a.rtt.srtt == b.rtt.srtt && a.rtt.rttvar == b.rtt.rttvar
  }

  /** The ACK of a transmission `waited` ago, or in the future if the clock stepped back, is this sample. */
  predicate Sampled(e: Estimate, e': Estimate, waited: int) {
    e' == UpdateRtt(e, if waited >= 0 then waited else 0)
  }

  /** The estimate changes exactly on the ACK of a chunk in flight that went out once. */
  predicate KarnAt(s: Sender, e: Event) {
    var w, w' := s.window, Apply(s, e).window;
    if e.GotAck? && e.pos in w.inFlight && e.pos < |s.times| && s.times[e.pos] == 1
    then Sampled(w.rtt, w'.rtt, e.now - w.inFlight[e.pos].sentAt)
    else SameEstimate(w', w)
  }

  lemma KarnStep(s: Sender, e: Event)
    requires Inv(s)
    ensures KarnAt(s, e)
  {
  }

  /** Karn's rule over runs. */
  lemma KarnsRule(total: nat, run: seq<Event>, e: Event)
    requires Feasible(Start(total), run) && Enabled(Exec(Start(total), run), e)
    ensures KarnAt(Exec(Start(total), run), e)
  {
    RunKeepsInv(total, run);
    KarnStep(Exec(Start(total), run), e);
  }

  // ----- the loop -----

  /** What the loop's `select!` yields; the socket closing ends the sequence. */
  datatype Input = AckIn(pos: nat) | NackIn(pos: nat) | TickIn

  lemma RunExtends(s: Sender, run: seq<Event>, e: Event)
    requires Feasible(s, run) && Enabled(Exec(s, run), e)
    ensures Feasible(s, run + [e]) && Exec(s, run + [e]) == Apply(Exec(s, run), e)
  {
    assert (run + [e])[..|run|] == run;
  }

  /**
   `wire` lists the chunks the socket took: each sent chunk at least once and at most as often as `times` says, and
   exactly so often if no attempt to read, frame and write a chunk fails.
   */
  ghost predicate Counted(wire: seq<nat>, times: seq<nat>, ok: nat -> bool) {
    && (forall k :: 0 <= k < |times| ==> 1 <= multiset(wire)[k] <= times[k])
    && ((forall n :: ok(n)) ==> forall k :: 0 <= k < |times| ==> multiset(wire)[k] == times[k])
    && (forall k :: k in wire ==> k < |times|)
  }

  /** Of the chunks to retransmit those that the socket takes; `tries` numbers the attempts. */
  function Survivors(more: seq<nat>, ok: nat -> bool, tries: nat): (r: seq<nat>)
    ensures forall k :: k in r ==> k in more
    ensures (forall n :: ok(n)) ==> r == more
  {
    if more == [] then []
    else
      var n := |more| - 1;
      var r := Survivors(more[..n], ok, tries);
      assert more == more[..n] + [more[n]];
      if ok(tries + n) then r + [more[n]] else r
  }

  predicate OnceEach(s: seq<nat>) {
    forall i, j :: 0 <= i < j < |s| ==> s[i] != s[j]
  }

  lemma {:induction false} SurvivorsOnce(more: seq<nat>, ok: nat -> bool, tries: nat)
    requires OnceEach(more)
    ensures OnceEach(Survivors(more, ok, tries))
  {
    if more == [] {
    } else {
      var n := |more| - 1;
      SurvivorsOnce(more[..n], ok, tries);
      assert forall k :: k in Survivors(more[..n], ok, tries) ==> k in more[..n];
      assert more[n] !in more[..n];
    }
  }

  lemma CountedRaise(wire: seq<nat>, times: seq<nat>, more: seq<nat>, chosen: set<nat>, ok: nat -> bool, tries: nat)
    requires Counted(wire, times, ok)
    requires forall k :: k in more <==> k in chosen
    requires forall k :: k in chosen ==> k < |times|
    requires OnceEach(more)
    ensures Counted(wire + Survivors(more, ok, tries), Raise(times, chosen), ok)
  {
    var r := Survivors(more, ok, tries);
    SurvivorsOnce(more, ok, tries);
    DistinctCounts(r);
    assert multiset(wire + r) == multiset(wire) + multiset(r);
    assert forall k :: k in wire + r <==> k in wire || k in r;
  }

  lemma {:induction false} DistinctCounts(s: seq<nat>)
    requires OnceEach(s)
    ensures forall k :: multiset(s)[k] == if k in s then 1 else 0
  {
    if s == [] {
    } else {
      var n := |s| - 1;
      DistinctCounts(s[..n]);
      assert s == s[..n] + [s[n]];
      assert multiset(s) == multiset(s[..n]) + multiset([s[n]]);
      assert s[n] !in s[..n];
      forall k
        ensures multiset(s)[k] == if k in s then 1 else 0
      {
        assert k in s <==> k in s[..n] || k == s[n];
      }
    }
  }

  function EventOf(input: Input, now: nat): Event {
    match input
    case AckIn(pos) => GotAck(pos, now)
    case NackIn(pos) => GotNack(pos, now)
    case TickIn => Tick(now)
  }

  /** The window object and the wire agree with a state some run reaches. */
  ghost predicate InStep(window: SlidingWindow, next: nat, wire: seq<nat>, ok: nat -> bool, total: nat, run: seq<Event>)
    reads window
  {
    && Feasible(Start(total), run)
    && var s := Exec(Start(total), run);
    && window.View() == s.window && next == s.next
    && Counted(wire, s.times, ok)
  }

  /** Sends while the window allows it and no attempt fails; a chunk whose attempt fails stays unsent. */
  method FillWindow(window: SlidingWindow, first: nat, wire: seq<nat>, ok: nat -> bool, tries: nat, total: nat,
                    now: nat, ghost run: seq<Event>)
    returns (next: nat, wire': seq<nat>, tries': nat, ghost run': seq<Event>)
    requires InStep(window, first, wire, ok, total, run)
    requires !Complete(window.View()) && !RetriesExhausted(window.View())
    modifies window
    ensures InStep(window, next, wire', ok, total, run')
    ensures !Complete(window.View()) && !RetriesExhausted(window.View())
    ensures !CanSend(window.View(), next) || (tries' > tries && !ok(tries' - 1))
  {
    next, wire', tries', run' := first, wire, tries, run;
    RunKeepsInv(total, run);
    while window.CanSendChunk(next)
      invariant InStep(window, next, wire', ok, total, run') && next <= total && tries' >= tries
      invariant !Complete(window.View()) && !RetriesExhausted(window.View())
      decreases total - next
    {
      RunKeepsInv(total, run');
      tries' := tries' + 1;
      if !ok(tries' - 1) {
        return;
      }
      SendExtends(total, run', now, wire', ok);
      run' := run' + [Send(now)];
      window.OnChunkSent(next, now);
      wire' := wire' + [next];
      next := next + 1;
    }
  }

  lemma SendExtends(total: nat, run: seq<Event>, now: nat, wire: seq<nat>, ok: nat -> bool)
    requires Feasible(Start(total), run) && Enabled(Exec(Start(total), run), Send(now))
    requires Counted(wire, Exec(Start(total), run).times, ok)
    ensures var s, s' := Exec(Start(total), run), Exec(Start(total), run + [Send(now)]);
            && Feasible(Start(total), run + [Send(now)])
            && s'.window == Sent(s.window, s.next, now) && s'.next == s.next + 1 <= total
            && Counted(wire + [s.next], s'.times, ok)
            && !Complete(s'.window) && !RetriesExhausted(s'.window)
  {
    RunKeepsInv(total, run);
    RunExtends(Start(total), run, Send(now));
    CountedSend(wire, Exec(Start(total), run).times, ok);
    var w := Exec(Start(total), run).window;
    SentExhaustsNothing(w, Exec(Start(total), run).next, now);
  }

  lemma SentExhaustsNothing(w: Window, i: nat, now: nat)
    requires !RetriesExhausted(w)
    ensures !RetriesExhausted(Sent(w, i, now))
  {
  }

  lemma CountedSend(wire: seq<nat>, times: seq<nat>, ok: nat -> bool)
    requires Counted(wire, times, ok)
    ensures Counted(wire + [|times|], times + [1], ok)
  {
    var k: nat := |times|;
    assert k !in wire;
    assert multiset(wire + [k]) == multiset(wire) + multiset([k]);
  }

  /** Retransmits one chunk after another; a failing attempt is passed over. */
  method Retransmit(wire: seq<nat>, more: seq<nat>, ok: nat -> bool, tries: nat) returns (wire': seq<nat>, tries': nat)
    ensures wire' == wire + Survivors(more, ok, tries) && tries' == tries + |more|
  {
    wire', tries' := wire, tries;
    for n := 0 to |more|
      invariant wire' == wire + Survivors(more[..n], ok, tries) && tries' == tries + n
    {
      assert more[..n + 1][..n] == more[..n];
      if ok(tries') {
        wire' := wire' + [more[n]];
      }
      tries' := tries' + 1;
    }
    assert more[..|more|] == more;
  }

  lemma InFlightWasSent(total: nat, run: seq<Event>)
    requires Feasible(Start(total), run)
    ensures var s := Exec(Start(total), run); forall k :: k in s.window.inFlight ==> k < |s.times|
  {
    RunKeepsInv(total, run);
  }

  /** Handles one ACK, NACK or timer tick. */
  method HandleInput(window: SlidingWindow, wire: seq<nat>, ok: nat -> bool, tries: nat, total: nat, input: Input,
                     now: nat, ghost next: nat, ghost run: seq<Event>)
    returns (wire': seq<nat>, tries': nat)
    requires InStep(window, next, wire, ok, total, run)
    requires Enabled(Exec(Start(total), run), EventOf(input, now))
    modifies window
    ensures InStep(window, next, wire', ok, total, run + [EventOf(input, now)])
  {
    ghost var s := Exec(Start(total), run);
    InFlightWasSent(total, run);
    RunExtends(Start(total), run, EventOf(input, now));
    wire', tries' := wire, tries;
    match input {
      case AckIn(pos) =>
        window.OnAck(pos, now);
      case NackIn(pos) =>
        var again := window.OnNack(pos, now);
        if again.Some? {
          CountedRaise(wire, s.times, [again.value], {pos}, ok, tries);
          wire', tries' := Retransmit(wire, [again.value], ok, tries);
        } else {
          assert Raise(s.times, {}) == s.times;
        }
      case TickIn =>
        var late := window.CheckTimeouts(now);
        CountedRaise(wire, s.times, late, Retransmits(s.window, now), ok, tries);
        wire', tries' := Retransmit(wire, late, ok, tries);
    }
  }

  lemma TotalKept(total: nat, run: seq<Event>)
    requires Feasible(Start(total), run)
    ensures Exec(Start(total), run).window.total == total
  {
    RunKeepsInv(total, run);
  }

  /** No chunk appears on the wire more than 1 + MAX_RETRIES times. */
  lemma WireBound(total: nat, run: seq<Event>, wire: seq<nat>, ok: nat -> bool)
    requires Feasible(Start(total), run) && Counted(wire, Exec(Start(total), run).times, ok)
    ensures forall k :: multiset(wire)[k] <= 1 + MAX_RETRIES
  {
    RunKeepsInv(total, run);
    forall k | k in wire
      ensures multiset(wire)[k] <= 1 + MAX_RETRIES
    {
      assert multiset(wire)[k] <= Exec(Start(total), run).times[k];
    }
  }

  /**
   The sender loop over the window object: whatever arrives and whichever attempts to read, frame and write a chunk
   fail, it stays on a run of the step system.
   */
  method DriveSender(total: nat, inputs: seq<(Input, nat)>, sendTimes: seq<nat>, ok: nat -> bool)
    returns (window: SlidingWindow, next: nat, wire: seq<nat>, complete: bool)
    requires |sendTimes| > |inputs|
    requires forall k :: 0 <= k < |inputs| ==> inputs[k].0 == TickIn || inputs[k].0.pos < total
    ensures exists run: seq<Event> :: InStep(window, next, wire, ok, total, run)
    ensures complete <==> Complete(window.View())
    ensures forall k :: multiset(wire)[k] <= 1 + MAX_RETRIES
  {
    window := new SlidingWindow(total, WINDOW_SIZE);
    next, wire := 0, [];
    var read, tries := 0, 0;
    ghost var run: seq<Event> := [];
    while true
      invariant fresh(window)
      invariant 0 <= read <= |inputs|
      invariant InStep(window, next, wire, ok, total, run)
      decreases |inputs| - read
    {
      var done := window.IsComplete();
      var exhausted := window.HasExceededMaxRetries();
      if done || exhausted {
        break;
      }
      next, wire, tries, run := FillWindow(window, next, wire, ok, tries, total, sendTimes[read], run);
      if read == |inputs| {
        break;
      }
      TotalKept(total, run);
      var (input, now) := inputs[read];
      wire, tries := HandleInput(window, wire, ok, tries, total, input, now, next, run);
      run := run + [EventOf(input, now)];
      read := read + 1;
    }
    complete := window.IsComplete();
    WireBound(total, run, wire, ok);
    assert InStep(window, next, wire, ok, total, run);
  }

  // ----- an ACK that came too early -----

  /** Nothing is in flight, and the next chunk to send was acknowledged before it was sent. */
  ghost predicate Stalled(s: Sender) {
    s.window.inFlight == map[] && s.next in s.window.acked
  }

  function AckedBy(run: seq<Event>): set<nat> {
    if run == [] then {}
    else AckedBy(run[..|run| - 1]) + if run[|run| - 1].GotAck? then {run[|run| - 1].pos} else {}
  }

  lemma StalledStep(s: Sender, e: Event)
    requires Inv(s) && Stalled(s) && Enabled(s, e)
    ensures !e.Send?
    ensures var s' := Apply(s, e);
            && Stalled(s') && s'.next == s.next && s'.times == s.times && s'.window.total == s.window.total
            && s'.window.acked == s.window.acked + if e.GotAck? then {e.pos} else {}
  {
    match e
    case Tick(now) => assert Raise(s.times, {}) == s.times && LateSet(s.window, now) == {};
    case GotNack(_, _) => assert Raise(s.times, {}) == s.times;
    case GotAck(_, _) =>
    case Send(_) =>
  }

  /** The state after a stalled sender's run, from the positions it was sent ACKs for. */
  ghost predicate StillStalled(s: Sender, e: Sender, positions: set<nat>) {
    && Inv(e) && Stalled(e) && e.next == s.next && e.times == s.times && e.window.total == s.window.total
    && e.window.acked == s.window.acked + positions
  }

  predicate NoSend(run: seq<Event>) {
    forall i :: 0 <= i < |run| ==> !run[i].Send?
  }

  lemma NoSendYet(run: seq<Event>)
    requires run != [] && NoSend(run[..|run| - 1]) && !run[|run| - 1].Send?
    ensures NoSend(run)
  {
    assert forall i :: 0 <= i < |run| - 1 ==> run[i] == run[..|run| - 1][i];
  }

  lemma StillStalledStep(s: Sender, e: Sender, positions: set<nat>, ev: Event)
    requires StillStalled(s, e, positions) && Enabled(e, ev)
    ensures !ev.Send?
    ensures StillStalled(s, Apply(e, ev), positions + if ev.GotAck? then {ev.pos} else {})
  {
    StalledStep(e, ev);
    StepKeepsInv(e, ev);
  }

  lemma {:induction false} StalledRun(s: Sender, run: seq<Event>)
    requires Inv(s) && Stalled(s) && Feasible(s, run)
    ensures StillStalled(s, Exec(s, run), AckedBy(run))
    ensures NoSend(run)
  {
    if run == [] {
    } else {
      var n := |run| - 1;
      StalledRun(s, run[..n]);
      StillStalledStep(s, Exec(s, run[..n]), AckedBy(run[..n]), run[n]);
      NoSendYet(run);
    }
  }

  /**
   A stalled sender transmits nothing ever again. It completes exactly if the peer acknowledges every remaining chunk,
   none of which is ever sent.
   */
  lemma StalledForGood(s: Sender, run: seq<Event>)
    requires Inv(s) && Stalled(s) && Feasible(s, run)
    ensures NoSend(run)
    ensures var e := Exec(s, run);
            && e.next == s.next && e.times == s.times
            && (Complete(e.window) <==> Range(s.window.total) <= s.window.acked + AckedBy(run))
  {
    StalledRun(s, run);
    CompleteMeansAllAcked(Exec(s, run));
  }

  lemma CompleteMeansAllAcked(s: Sender)
    requires Inv(s)
    ensures Complete(s.window) <==> Range(s.window.total) <= s.window.acked
  {
  }

  /** A run into the stall: three chunks, the second acknowledged while only the first was sent. */
  lemma EarlyAckStalls()
    ensures var run := [Send(0), GotAck(1, 0), GotAck(0, 0)];
            var s := Exec(Start(3), run);
            Feasible(Start(3), run) && Stalled(s) && !Complete(s.window) && s.next == 1
  {
    var a, b, c := Send(0), GotAck(1, 0), GotAck(0, 0);
    var s0 := Start(3);
    RunExtends(s0, [], a);
    assert [] + [a] == [a];
    var s1 := Exec(s0, [a]);
    assert s1.window.inFlight.Keys == {0} && s1.window.acked == {} && s1.window.base == 0;
    RunExtends(s0, [a], b);
    assert [a] + [b] == [a, b];
    var s2 := Exec(s0, [a, b]);
    assert s2.window.inFlight.Keys == {0} && s2.window.acked == {1} && s2.window.base == 0;
    RunExtends(s0, [a, b], c);
    assert [a, b] + [c] == [a, b, c];
    var s3 := Exec(s0, [a, b, c]);
    assert s3.window.acked == {0, 1} && s3.window.base == 2;
    assert s3.window.inFlight.Keys == {};
  }
}
