/** Bounds over runs of the sender: the retransmission timeout, the window, and what a NACK asks for. */
module SenderTimeouts {
  import opened Sets
  import opened SlidingWindows
  import opened SenderLoop

  // ----- exponential backoff -----

  /** A tick that transmits something again. */
  ghost function Expiry(s: Sender, e: Event): nat {
    if e.Tick? && Expires(s.window, e.now) then 1 else 0
  }

  /** The ticks of a run that transmit something again. */
  ghost function Backoffs(s: Sender, run: seq<Event>): nat {
    if run == [] then 0
    else Backoffs(s, run[..|run| - 1]) + Expiry(Exec(s, run[..|run| - 1]), run[|run| - 1])
  }

  /** Not the ACK of a chunk in flight that went out once. */
  predicate NoSampleAt(s: Sender, e: Event) {
    e.GotAck? && e.pos in s.window.inFlight ==> s.window.inFlight[e.pos].retries > 0
  }

  predicate NoSample(s: Sender, run: seq<Event>) {
    run == [] || (NoSample(s, run[..|run| - 1]) && NoSampleAt(Exec(s, run[..|run| - 1]), run[|run| - 1]))
  }

  function Pow(base: nat, k: nat): (p: nat)
    ensures base > 0 ==> p > 0
  {
    if k == 0 then 1
    else
      var p := Pow(base, k - 1);
      assert base > 0 ==> base * p > 0;
      base * p
  }

  /** `rto` is `first` times (3/2)^k, up to rounding down at each step and to the cap of 60 s. */
  predicate GrownBy(first: nat, rto: nat, k: nat) {
    && Pow(2, k) * rto <= Pow(3, k) * first
    && (rto == 60_000_000_000 || Pow(2, k) * (rto - 1) >= Pow(3, k) * (first - 1))
  }

  /** `first` lengthened `k` times. */
  function Lengthened(first: nat, k: nat): nat {
    if k == 0 then first
    else Longer(Lengthened(first, k - 1))
  }

  function Longer(rto: nat): nat {
    if 3 * rto / 2 >= 60_000_000_000 then 60_000_000_000 else 3 * rto / 2
  }

  lemma {:induction false} LengthenedGrows(first: nat, k: nat)
    requires 3_000_000_000 <= first <= MAX_RTO
    ensures GrownBy(first, Lengthened(first, k), k) && 3_000_000_000 <= Lengthened(first, k) <= MAX_RTO
  {
    if k == 0 {
    } else {
      LengthenedGrows(first, k - 1);
      GrowOnce(first, Lengthened(first, k - 1), Lengthened(first, k), k - 1);
    }
  }

  lemma GrowOnce(first: nat, rto: nat, rto': nat, k: nat)
    requires GrownBy(first, rto, k) && GrowsByHalf(rto, rto') && rto <= MAX_RTO
    ensures GrownBy(first, rto', k + 1)
  {
    var p, q := Pow(2, k), Pow(3, k);
    GrowAbove(p, q, first, rto, rto');
    if rto' < 60_000_000_000 {
      GrowBelow(p, q, first, rto, rto');
    }
  }

  lemma GrowAbove(p: nat, q: nat, first: nat, rto: nat, rto': nat)
    requires p * rto <= q * first && 2 * rto' <= 3 * rto
    ensures 2 * p * rto' <= 3 * q * first
  {
    MulMono(p, 2 * rto', 3 * rto);
    assert p * (2 * rto') == 2 * p * rto' && p * (3 * rto) == 3 * (p * rto) && 3 * (q * first) == 3 * q * first;
  }

  lemma GrowBelow(p: nat, q: nat, first: nat, rto: nat, rto': nat)
    requires p * (rto - 1) >= q * (first - 1) && 3 * rto < 2 * rto' + 2
    ensures 2 * p * (rto' - 1) >= 3 * q * (first - 1)
  {
    MulMono(p, 3 * (rto - 1), 2 * (rto' - 1));
    assert p * (2 * (rto' - 1)) == 2 * p * (rto' - 1) && p * (3 * (rto - 1)) == 3 * (p * (rto - 1));
    assert 3 * (q * (first - 1)) == 3 * q * (first - 1);
  }

  lemma MulMono(p: nat, x: int, y: int)
    requires x <= y
    ensures p * x <= p * y
  {
  }

  lemma BackoffStep(s: Sender, e: Event)
    requires NoSampleAt(s, e)
    ensures Apply(s, e).window.rtt.rto == if Expiry(s, e) == 1 then Longer(s.window.rtt.rto) else s.window.rtt.rto
  {
    ExpiresMeansRetransmits(s.window, e.now);
  }

  lemma {:induction false} RunLengthens(s: Sender, run: seq<Event>)
    requires NoSample(s, run)
    ensures Exec(s, run).window.rtt.rto == Lengthened(s.window.rtt.rto, Backoffs(s, run))
  {
    if run == [] {
    } else {
      var n := |run| - 1;
      var k := Backoffs(s, run[..n]);
      RunLengthens(s, run[..n]);
      BackoffStep(Exec(s, run[..n]), run[n]);
      var e := Expiry(Exec(s, run[..n]), run[n]);
      assert Backoffs(s, run) == k + e;
      LengthenedOnce(s.window.rtt.rto, k, e);
    }
  }

  lemma LengthenedOnce(first: nat, k: nat, e: nat)
    requires e <= 1
    ensures Lengthened(first, k + e) == if e == 1 then Longer(Lengthened(first, k)) else Lengthened(first, k)
  {
  }

  /** RFC 6298 section 5.5 with factor 3/2: over a run without samples each expiry lengthens the timeout by half. */
  lemma BackoffOverRuns(s: Sender, run: seq<Event>)
    requires NoSample(s, run) && RtoBounded(s.window)
    ensures var rto, k := Exec(s, run).window.rtt.rto, Backoffs(s, run);
            rto == Lengthened(s.window.rtt.rto, k) && GrownBy(s.window.rtt.rto, rto, k)
  {
    RunLengthens(s, run);
    LengthenedGrows(s.window.rtt.rto, Backoffs(s, run));
  }

  /** At most two chunks await an answer, and they lie side by side from the first one that is not acknowledged. */
  lemma TwoInFlight(total: nat, run: seq<Event>)
    requires Feasible(Start(total), run)
    ensures var w := Exec(Start(total), run).window;
            && |w.inFlight.Keys| <= 2
            && (forall i :: i in w.inFlight ==> (i == w.base || i == w.base + 1) && i < total)
            && (forall i :: 0 <= i < w.base ==> i in w.acked) && (w.base < total ==> w.base !in w.acked)
  {
    RunKeepsInv(total, run);
    WithinWindow(Exec(Start(total), run));
  }

  lemma WithinWindow(s: Sender)
    requires Inv(s)
    ensures (forall i :: i in s.window.inFlight ==> i == s.window.base || i == s.window.base + 1)
    ensures |s.window.inFlight.Keys| <= 2
  {
    var w := s.window;
    assert w.inFlight.Keys <= {w.base, w.base + 1};
    SubsetSize(w.inFlight.Keys, {w.base, w.base + 1});
  }

  /** What a NACK does: the chunk goes out again, and only it, if it was out at most five times and is in flight. */
  lemma NackAsksAgain(total: nat, run: seq<Event>, pos: nat, now: nat)
    requires Feasible(Start(total), run) && Enabled(Exec(Start(total), run), GotNack(pos, now))
    ensures var s := Exec(Start(total), run);
            var s' := Apply(s, GotNack(pos, now));
            && |s'.times| == |s.times|
            && forall k :: 0 <= k < |s.times| ==>
                 s'.times[k] == if k == pos && k !in s.window.acked && s.times[k] <= 5
                                then s.times[k] + 1 else s.times[k]
  {
    RunKeepsInv(total, run);
  }
}
