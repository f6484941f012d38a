/**
 The sender's sliding window. `Window` is its value, with one function per operation; the class
 `SlidingWindow` updates the fields in place and is proved against those functions.
 Durations are in nanoseconds.
 */
module SlidingWindows {
  import opened Wrappers

  const NANOS_PER_MILLI: nat := 1_000_000
  const MIN_RTO: nat := 3_000 * NANOS_PER_MILLI
  const MAX_RTO: nat := 60_000 * NANOS_PER_MILLI
  const INITIAL_RTO: nat := 10_000 * NANOS_PER_MILLI
  const MAX_RETRIES: nat := 5

  datatype InFlight = InFlight(sentAt: nat, retries: nat)

  datatype Estimate = Estimate(srtt: nat, rttvar: nat, rto: nat)

  datatype Window = Window(
    size: nat, base: nat, total: nat, inFlight: map<nat, InFlight>, acked: set<nat>, rtt: Estimate)

  function Fresh(total: nat, size: nat): Window {
    Window(size, 0, total, map[], {}, Estimate(4000 * NANOS_PER_MILLI, 1500 * NANOS_PER_MILLI, INITIAL_RTO))
  }

  predicate CanSend(w: Window, i: nat) {
    i < w.total && i < w.base + w.size && i !in w.acked && i !in w.inFlight
  }

  predicate Complete(w: Window) {
    w.base >= w.total
  }

  predicate RetriesExhausted(w: Window) {
    exists i | i in w.inFlight :: w.inFlight[i].retries >= MAX_RETRIES
  }

  function Sent(w: Window, i: nat, now: nat): Window {
    w.(inFlight := w.inFlight[i := InFlight(now, 0)])
  }

  /** `Duration::duration_since`, which saturates at zero. */
  function Elapsed(sentAt: nat, now: nat): nat {
    if now >= sentAt then now - sentAt else 0
  }

  /** The estimator, in real arithmetic where the source computes in f64, truncated back to whole milliseconds. */
  function UpdateRtt(e: Estimate, sample: nat): Estimate {
    var sampleMs := (sample / NANOS_PER_MILLI) as real;
    var srttMs := (e.srtt / NANOS_PER_MILLI) as real;
    var rttvarMs := (e.rttvar / NANOS_PER_MILLI) as real;
    var diff := if srttMs >= sampleMs then srttMs - sampleMs else sampleMs - srttMs;
    var newRttvar := 0.75 * rttvarMs + 0.25 * diff;
    var newSrtt := 0.875 * srttMs + 0.125 * sampleMs;
    var newRto := newSrtt + 4.0 * newRttvar;
    Estimate(newSrtt.Floor * NANOS_PER_MILLI, newRttvar.Floor * NANOS_PER_MILLI, Clamp(newRto.Floor * NANOS_PER_MILLI))
  }

  function Clamp(x: int): nat {
    if x < MIN_RTO then MIN_RTO else if x > MAX_RTO then MAX_RTO else x
  }

  function Backoff(rto: nat): nat {
    if rto * 3 / 2 > MAX_RTO then MAX_RTO else rto * 3 / 2
  }

  /** The first index at or after `base` that is not acknowledged. */
  function Slide(base: nat, total: nat, acked: set<nat>): (b: nat)
    ensures base <= b && (base <= total ==> b <= total)
    ensures forall i :: base <= i < b ==> i in acked
    ensures b < total ==> b !in acked
    decreases total - base
  {
    if base < total && base in acked then Slide(base + 1, total, acked) else base
  }

  function Acked(w: Window, i: nat, now: nat): Window {
    var rtt :=
      if i in w.inFlight && w.inFlight[i].retries == 0 then UpdateRtt(w.rtt, Elapsed(w.inFlight[i].sentAt, now))
      else w.rtt;
    var acked := w.acked + {i};
    Window(w.size, Slide(w.base, w.total, acked), w.total, w.inFlight - {i}, acked, rtt)
  }

  function Nacked(w: Window, i: nat, now: nat): Window {
    if i in w.inFlight then w.(inFlight := w.inFlight[i := InFlight(now, w.inFlight[i].retries + 1)]) else w
  }

  /** Whether a NACK asks for the chunk to be transmitted again. */
  predicate NackRetransmits(w: Window, i: nat) {
    i in w.inFlight && w.inFlight[i].retries + 1 <= MAX_RETRIES
  }

  predicate Late(w: Window, i: nat, now: nat) {
    i in w.inFlight && Elapsed(w.inFlight[i].sentAt, now) > w.rtt.rto
  }

  function LateSet(w: Window, now: nat): set<nat> {
    set i | i in w.inFlight && Late(w, i, now)
  }

  /** The late chunks that are transmitted again. */
  function Retransmits(w: Window, now: nat): set<nat> {
    set i | i in w.inFlight && Late(w, i, now) && w.inFlight[i].retries + 1 <= MAX_RETRIES
  }

  function TimedOut(w: Window, now: nat): Window {
    w.(
      inFlight := map i | i in w.inFlight ::
        if Late(w, i, now) then InFlight(now, w.inFlight[i].retries + 1) else w.inFlight[i],
      rtt := if Retransmits(w, now) != {} then w.rtt.(rto := Backoff(w.rtt.rto)) else w.rtt)
  }

  // ----- what every operation keeps, whatever the peer acknowledges -----

  predicate RtoBounded(w: Window) {
    MIN_RTO <= w.rtt.rto <= MAX_RTO
  }

  /** `next` is the first chunk not yet sent; the sent chunks are exactly those below it. */
  ghost predicate Tracks(w: Window, next: nat) {
    && w.base <= w.total
    && next <= w.total && next <= w.base + w.size
    && (forall i :: 0 <= i < w.base ==> i in w.acked)
    && (w.base < w.total ==> w.base !in w.acked)
    && (forall i :: i in w.acked ==> i < w.total)
    && (forall i :: i in w.inFlight <==> 0 <= i < next && i !in w.acked)
    && RtoBounded(w)
  }

  lemma FreshTracks(total: nat, size: nat)
    ensures Tracks(Fresh(total, size), 0)
  {
  }

  lemma SentTracks(w: Window, next: nat, now: nat)
    requires Tracks(w, next) && CanSend(w, next)
    ensures Tracks(Sent(w, next, now), next + 1)
  {
  }

  lemma AckedTracks(w: Window, next: nat, i: nat, now: nat)
    requires Tracks(w, next) && i < w.total
    ensures Tracks(Acked(w, i, now), next)
  {
    var w' := Acked(w, i, now);
    assert forall k :: k in w'.inFlight <==> k in w.inFlight && k != i;
    forall k | 0 <= k < w'.base
      ensures k in w'.acked
    {
    }
  }

  lemma NackedTracks(w: Window, next: nat, i: nat, now: nat)
    requires Tracks(w, next)
    ensures Tracks(Nacked(w, i, now), next)
  {
  }

  lemma TimedOutTracks(w: Window, next: nat, now: nat)
    requires Tracks(w, next)
    ensures Tracks(TimedOut(w, now), next)
  {
  }

  // ----- structure and progress -----

  /** base is the least un-acknowledged index, and every in-flight chunk lies inside the window. */
  lemma WindowStructure(w: Window, next: nat)
    requires Tracks(w, next) && !Complete(w)
    ensures w.base !in w.acked && forall i :: 0 <= i < w.total && i !in w.acked ==> w.base <= i
    ensures forall i :: i in w.inFlight ==> w.base <= i < w.base + w.size
  {
    forall i | 0 <= i < w.total && i !in w.acked
      ensures w.base <= i
    {
      assert i < w.base ==> i in w.acked;
    }
  }

  /** With nothing in flight and work left, the sender can go on exactly when `next` was not acknowledged early. */
  lemma IdleCanSendIff(w: Window, next: nat)
    requires Tracks(w, next) && w.size > 0
    requires w.inFlight == map[] && !Complete(w)
    ensures CanSend(w, next) <==> next !in w.acked
  {
    forall i | 0 <= i < next
      ensures i in w.acked
    {
      assert i !in w.inFlight;
    }
    if next !in w.acked {
      assert next < w.base ==> next in w.acked;
      assert w.base < next ==> w.base in w.acked;
    }
  }

  /** No deadlock: if only sent chunks were ever acknowledged, an idle incomplete window admits the next chunk. */
  lemma NoDeadlock(w: Window, next: nat)
    requires Tracks(w, next) && w.size > 0
    requires forall i :: i in w.acked ==> i < next
    requires w.inFlight == map[] && !Complete(w)
    ensures CanSend(w, next)
  {
    IdleCanSendIff(w, next);
  }

  // ----- the timeout -----

  /** Some chunk has waited longer than the timeout and was transmitted at most five times. */
  ghost predicate Expires(w: Window, now: nat) {
    exists i | i in w.inFlight :: now > w.inFlight[i].sentAt + w.rtt.rto && w.inFlight[i].retries < 5
  }

  lemma ExpiresMeansRetransmits(w: Window, now: nat)
    ensures Expires(w, now) <==> Retransmits(w, now) != {}
  {
    if Expires(w, now) {
      var i :| i in w.inFlight && now > w.inFlight[i].sentAt + w.rtt.rto && w.inFlight[i].retries < 5;
      assert i in Retransmits(w, now);
    }
  }

  /** The timeout grows by half, rounded down, or to its cap of 60 s. */
  predicate GrowsByHalf(rto: nat, rto': nat) {
    && (rto < 60_000_000_000 ==> rto < rto')
    && (rto' < 60_000_000_000 ==> 2 * rto' <= 3 * rto < 2 * rto' + 2)
    && (rto' >= 60_000_000_000 ==> rto' == 60_000_000_000 && 3 * rto >= 2 * rto')
  }

  /** A scan that transmits something again lengthens the timeout once; any other scan leaves the estimate alone. */
  lemma ExpiryBacksOff(w: Window, now: nat)
    requires RtoBounded(w)
    ensures var e, e' := w.rtt, TimedOut(w, now).rtt;
            && e'.srtt == e.srtt && e'.rttvar == e.rttvar
            && (Expires(w, now) ==> GrowsByHalf(e.rto, e'.rto))
            && (!Expires(w, now) ==> e' == e)
  {
    ExpiresMeansRetransmits(w, now);
  }

  /** Chunks that go out on a fresh window wait ten seconds, and not a nanosecond more. */
  lemma FirstTimeout(total: nat, size: nat, i: nat, at: nat, now: nat)
    ensures Retransmits(Sent(Fresh(total, size), i, at), now) == if now > at + 10_000_000_000 then {i} else {}
  {
    var w := Sent(Fresh(total, size), i, at);
    assert forall k :: k in Retransmits(w, now) ==> k == i;
    assert i in Retransmits(w, now) <==> now > at + 10_000_000_000;
  }

  /** A transmission, first or repeated, restarts the chunk's clock: nothing is late before the timeout in force. */
  lemma ClockRestarts(w: Window, i: nat, now: nat, later: nat)
    ensures later <= now + w.rtt.rto ==> !Late(Sent(w, i, now), i, later) && !Late(Nacked(w, i, now), i, later)
    ensures later <= now + TimedOut(w, now).rtt.rto && Late(w, i, now) ==> !Late(TimedOut(w, now), i, later)
    ensures i in w.inFlight && !Late(w, i, now) ==> TimedOut(w, now).inFlight[i] == w.inFlight[i]
    ensures i in w.inFlight && Late(w, i, now) ==>
              TimedOut(w, now).inFlight[i] == InFlight(now, w.inFlight[i].retries + 1)
  {
  }

  // ----- the estimator -----

  function Distance(x: nat, y: nat): nat {
    if x >= y then x - y else y - x
  }

  lemma RealSums(s: nat, v: nat, m: nat)
    ensures 0.875 * (s as real) + 0.125 * (m as real) == (7 * s + m) as real / 8.0
    ensures 0.75 * (v as real) + 0.25 * (Distance(s, m) as real) == (3 * v + Distance(s, m)) as real / 4.0
    ensures (if s as real >= m as real then s as real - m as real else m as real - s as real) == Distance(s, m) as real
  {
  }

  lemma FloorOfSum(x: real, n: nat)
    ensures (x + n as real).Floor == x.Floor + n
  {
  }

  /** RFC 6298 section 2.3 with alpha = 1/8, beta = 1/4 in integer form, and the code's own bounds on the timeout. */
  lemma EstimatorIsJacobson(e: Estimate, sample: nat)
    ensures var s, v, m := e.srtt / NANOS_PER_MILLI, e.rttvar / NANOS_PER_MILLI, sample / NANOS_PER_MILLI;
            var e' := UpdateRtt(e, sample);
            && e'.srtt == (7 * s + m) / 8 * NANOS_PER_MILLI
            && e'.rttvar == (3 * v + Distance(s, m)) / 4 * NANOS_PER_MILLI
            && var x := ((7 * s + m) / 8 + 3 * v + Distance(s, m)) * NANOS_PER_MILLI;
               e'.rto == if x < 3_000_000_000 then 3_000_000_000 else if x > 60_000_000_000 then 60_000_000_000 else x
  {
    var s, v, m := e.srtt / NANOS_PER_MILLI, e.rttvar / NANOS_PER_MILLI, sample / NANOS_PER_MILLI;
    var w := 3 * v + Distance(s, m);
    RealSums(s, v, m);
    FloorOfEighths(7 * s + m);
    FloorOfQuarters(w);
    var newSrtt := (7 * s + m) as real / 8.0;
    assert newSrtt + 4.0 * (w as real / 4.0) == newSrtt + w as real;
    FloorOfSum(newSrtt, w);
  }

  /** The first sample of `m` milliseconds, from the initial estimate of 4 s with a variation of 1.5 s. */
  lemma FirstSample(total: nat, size: nat, i: nat, at: nat, m: nat)
    ensures var w := Acked(Sent(Fresh(total, size), i, at), i, at + m * 1_000_000);
            && w.rtt.srtt == (28_000 + m) / 8 * 1_000_000
            && w.rtt.rttvar == (4_500 + Distance(4_000, m)) / 4 * 1_000_000
  {
    var w := Sent(Fresh(total, size), i, at);
    assert Acked(w, i, at + m * 1_000_000).rtt == UpdateRtt(w.rtt, m * 1_000_000);
    assert m * 1_000_000 / NANOS_PER_MILLI == m;
    EstimatorIsJacobson(w.rtt, m * 1_000_000);
  }

  lemma FloorOfEighths(x: nat)
    ensures (x as real / 8.0).Floor == x / 8
  {
    var q, r := x / 8, x % 8;
    assert x as real / 8.0 == q as real + r as real / 8.0;
  }

  lemma FloorOfQuarters(x: nat)
    ensures (x as real / 4.0).Floor == x / 4
  {
    var q, r := x / 4, x % 4;
    assert x as real / 4.0 == q as real + r as real / 4.0;
  }

  // ----- the in-place implementation -----

  class SlidingWindow {
    const windowSize: nat
    var baseChunk: nat
    const totalChunks: nat
    var inFlight: map<nat, InFlight>
    var acked: set<nat>
    var srtt: nat
    var rttvar: nat
    var rto: nat

    ghost function View(): Window
      reads this
    {
      Window(windowSize, baseChunk, totalChunks, inFlight, acked, Estimate(srtt, rttvar, rto))
    }

    constructor (total: nat, size: nat)
      ensures View() == Fresh(total, size)
    {
      windowSize, baseChunk, totalChunks := size, 0, total;
      inFlight, acked := map[], {};
      srtt, rttvar, rto := 4000 * NANOS_PER_MILLI, 1500 * NANOS_PER_MILLI, INITIAL_RTO;
    }

    method HasExceededMaxRetries() returns (r: bool)
      ensures r <==> RetriesExhausted(View())
    {
      var pending := inFlight.Keys;
      while pending != {}
        invariant pending <= inFlight.Keys
        invariant forall i :: i in inFlight && i !in pending ==> inFlight[i].retries < MAX_RETRIES
        decreases pending
      {
        var i :| i in pending;
        if inFlight[i].retries >= MAX_RETRIES {
          return true;
        }
        pending := pending - {i};
      }
      return false;
    }

    predicate CanSendChunk(i: nat): (r: bool)
      reads this
      ensures r <==> CanSend(View(), i)
    {
      i < totalChunks && i < baseChunk + windowSize && i !in acked && i !in inFlight
    }

    method OnChunkSent(i: nat, now: nat)
      modifies this
      ensures View() == Sent(old(View()), i, now)
    {
      inFlight := inFlight[i := InFlight(now, 0)];
    }

    method OnAck(i: nat, now: nat)
      modifies this
      ensures View() == Acked(old(View()), i, now)
    {
      if i in inFlight {
        var entry := inFlight[i];
        inFlight := inFlight - {i};
        if entry.retries == 0 {
          UpdateRttInPlace(Elapsed(entry.sentAt, now));
        }
      }
      acked := acked + {i};
      ghost var target := Slide(baseChunk, totalChunks, acked);
      while baseChunk < totalChunks && baseChunk in acked
        invariant Slide(baseChunk, totalChunks, acked) == target
        invariant View() == Acked(old(View()), i, now).(base := baseChunk)
        decreases totalChunks - baseChunk
      {
        baseChunk := baseChunk + 1;
      }
    }

    method UpdateRttInPlace(sample: nat)
      modifies this`srtt, this`rttvar, this`rto
      ensures Estimate(srtt, rttvar, rto) == UpdateRtt(old(View()).rtt, sample)
    {
      var e := UpdateRtt(Estimate(srtt, rttvar, rto), sample);
      srtt, rttvar, rto := e.srtt, e.rttvar, e.rto;
    }

    method OnNack(i: nat, now: nat) returns (retransmit: Option<nat>)
      modifies this
      ensures View() == Nacked(old(View()), i, now)
      ensures retransmit == if NackRetransmits(old(View()), i) then Some(i) else None
    {
      if i in inFlight {
        var retries := inFlight[i].retries + 1;
        inFlight := inFlight[i := InFlight(now, retries)];
        return if retries > MAX_RETRIES then None else Some(i);
      }
      return None;
    }

    /** Visits the in-flight chunks in an arbitrary order, as a hash map does. */
    method CheckTimeouts(now: nat) returns (toRetransmit: seq<nat>)
      modifies this
      ensures View() == TimedOut(old(View()), now)
      ensures forall i :: i in toRetransmit <==> i in Retransmits(old(View()), now)
      ensures forall j, k :: 0 <= j < k < |toRetransmit| ==> toRetransmit[j] != toRetransmit[k]
    {
      toRetransmit := [];
      var pending := inFlight.Keys;
      ghost var w := View();
      while pending != {}
        invariant pending <= inFlight.Keys == w.inFlight.Keys
        invariant View() == w.(inFlight := inFlight)
        invariant forall i :: i in pending ==> inFlight[i] == w.inFlight[i]
        invariant forall i :: i in inFlight && i !in pending ==> inFlight[i] == TimedOut(w, now).inFlight[i]
        invariant forall i :: i in toRetransmit <==> i in Retransmits(w, now) && i !in pending
        invariant forall j, k :: 0 <= j < k < |toRetransmit| ==> toRetransmit[j] != toRetransmit[k]
        decreases pending
      {
        var i :| i in pending;
        pending := pending - {i};
        if Elapsed(inFlight[i].sentAt, now) > rto {
          var retries := inFlight[i].retries + 1;
          inFlight := inFlight[i := InFlight(now, retries)];
          if retries <= MAX_RETRIES {
            toRetransmit := toRetransmit + [i];
          }
        }
      }
      assert inFlight == TimedOut(w, now).inFlight;
      if toRetransmit != [] {
        assert toRetransmit[0] in Retransmits(w, now);
        rto := Backoff(rto);
      } else {
        assert forall i :: i in Retransmits(w, now) ==> i in toRetransmit;
      }
    }

    predicate IsComplete(): (r: bool)
      reads this
      ensures r <==> Complete(View())
    {
      baseChunk >= totalChunks
    }
  }
}
