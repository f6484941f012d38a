/** Over runs of the relay's data path: no buffer leaks, channels stay short, and who may drop a frame. */
module RelayConservation {
  import opened Bytes
  import opened PooledRelay

  // ----- no buffer leaks -----

  /** Neither in the pool nor with any session. */
  ghost predicate Lost(s: System, id: nat) {
    id in s.memory.cells && id !in s.memory.free && forall x :: x in s.lanes ==> !Owns(s.lanes[x], id)
  }

  ghost function LostSet(s: System): set<nat> {
    set id | id in s.memory.cells && Lost(s, id)
  }

  /** The buffers in the pool or in this lane. */
  predicate Here(m: Memory, l: Lane, id: nat) {
    id in m.free || Owns(l, id)
  }

  /** What an action other than an overrun does to where a buffer is: it stays, and a new one comes in. */
  ghost predicate StaysHere(m: Memory, l: Lane, m': Memory, l': Lane, id: nat) {
    if id in m.cells then Here(m', l', id) <==> Here(m, l, id) else id in m'.cells ==> Here(m', l', id)
  }

  lemma ReadingKeepsHere(kind: Kind, m: Memory, l: Lane, a: Action, id: nat)
    requires Exclusive(m, l) && CanAct(kind, m, l, a) && (a.Get? || a.Fill? || a.PushFailed?)
    ensures var (m', l') := Act(kind, m, l, a); StaysHere(m, l, m', l', id)
  {
  }

  lemma QueueKeepsHere(kind: Kind, m: Memory, l: Lane, a: Action, id: nat)
    requires Exclusive(m, l) && CanAct(kind, m, l, a) && (a.PushAccepted? || a.Take?)
    ensures var (m', l') := Act(kind, m, l, a); StaysHere(m, l, m', l', id)
  {
    if a.Take? {
      assert l.queue == [l.queue[0]] + l.queue[1..];
    }
  }

  lemma WritingKeepsHere(kind: Kind, m: Memory, l: Lane, a: Action, id: nat)
    requires Exclusive(m, l) && CanAct(kind, m, l, a) && (a.Write? || a.PutBack?)
    ensures var (m', l') := Act(kind, m, l, a); StaysHere(m, l, m', l', id)
  {
  }

  lemma ActKeepsHere(kind: Kind, m: Memory, l: Lane, a: Action, id: nat)
    requires Exclusive(m, l) && CanAct(kind, m, l, a) && !a.Overrun?
    ensures var (m', l') := Act(kind, m, l, a); StaysHere(m, l, m', l', id)
  {
    match a
    case Get(_) => ReadingKeepsHere(kind, m, l, a, id);
    case Fill(_) => ReadingKeepsHere(kind, m, l, a, id);
    case PushFailed => ReadingKeepsHere(kind, m, l, a, id);
    case PushAccepted => QueueKeepsHere(kind, m, l, a, id);
    case Take => QueueKeepsHere(kind, m, l, a, id);
    case Write(_) => WritingKeepsHere(kind, m, l, a, id);
    case PutBack => WritingKeepsHere(kind, m, l, a, id);
    case Close =>
    case StartDrain =>
    case EndReader =>
    case AttachReader =>
    case EndWriter =>
    case AttachWriter =>
  }

  /** An overrun takes the reader's buffer away and leaves every other where it is. */
  lemma OverrunLosesIt(kind: Kind, m: Memory, l: Lane, frame: seq<byte>, id: nat)
    requires Exclusive(m, l) && CanAct(kind, m, l, Overrun(frame))
    ensures var (m', l') := Act(kind, m, l, Overrun(frame));
            m' == m && (Here(m', l', id) <==> Here(m, l, id) && id != l.reading.id)
  {
    assert Owns(l, l.reading.id);
  }

  /** Some other session has the buffer. */
  ghost predicate Elsewhere(s: System, x: string, id: nat) {
    exists y | y in s.lanes && y != x :: Owns(s.lanes[y], id)
  }

  lemma LostSplit(s: System, x: string, id: nat)
    requires x in s.lanes
    ensures Lost(s, id) <==> id in s.memory.cells && !Here(s.memory, s.lanes[x], id) && !Elsewhere(s, x, id)
  {
  }

  lemma ElsewhereStays(kind: Kind, s: System, x: string, a: Action, id: nat)
    requires Inv(kind, s) && CanStep(kind, s, On(x, a))
    ensures Elsewhere(Next(kind, s, On(x, a)), x, id) <==> Elsewhere(s, x, id)
    ensures Elsewhere(s, x, id) ==> !Owns(s.lanes[x], id)
  {
    var s' := Next(kind, s, On(x, a));
    assert forall y :: y in s.lanes && y != x ==> s'.lanes[y] == s.lanes[y];
  }

  lemma OnLoses(kind: Kind, s: System, x: string, a: Action, id: nat)
    requires Inv(kind, s) && CanStep(kind, s, On(x, a))
    ensures Lost(Next(kind, s, On(x, a)), id) <==> Lost(s, id) || (a.Overrun? && id == s.lanes[x].reading.id)
  {
    var s', l := Next(kind, s, On(x, a)), s.lanes[x];
    LostSplit(s, x, id);
    LostSplit(s', x, id);
    ElsewhereStays(kind, s, x, a, id);
    if a.Overrun? {
      OverrunLosesIt(kind, s.memory, l, a.frame, id);
      assert Owns(l, l.reading.id);
    } else {
      ActKeepsHere(kind, s.memory, l, a, id);
      if id in s.memory.cells {
        KeptCell(kind, s.memory, l, a, id);
      }
    }
  }

  lemma KeptCell(kind: Kind, m: Memory, l: Lane, a: Action, id: nat)
    requires CanAct(kind, m, l, a) && id in m.cells
    ensures id in Act(kind, m, l, a).0.cells
  {
  }

  /** The overruns among the steps of a run that were possible. */
  ghost function Overruns(kind: Kind, run: seq<Step>): nat {
    if run == [] then 0
    else
      var step := run[|run| - 1];
      Overruns(kind, run[..|run| - 1])
      + if CanStep(kind, Exec(kind, run[..|run| - 1]), step) && step.On? && step.action.Overrun? then 1 else 0
  }

  lemma OnLosesSet(kind: Kind, s: System, x: string, a: Action)
    requires Inv(kind, s) && CanStep(kind, s, On(x, a))
    ensures LostSet(Next(kind, s, On(x, a))) == LostSet(s) + if a.Overrun? then {s.lanes[x].reading.id} else {}
  {
    forall id: nat
      ensures Lost(Next(kind, s, On(x, a)), id) <==> Lost(s, id) || (a.Overrun? && id == s.lanes[x].reading.id)
    {
      OnLoses(kind, s, x, a, id);
    }
  }

  lemma OnLosesMany(kind: Kind, s: System, x: string, a: Action)
    requires Inv(kind, s) && CanStep(kind, s, On(x, a))
    ensures |LostSet(Next(kind, s, On(x, a)))| == |LostSet(s)| + if a.Overrun? then 1 else 0
  {
    OnLosesSet(kind, s, x, a);
    if a.Overrun? {
      assert Owns(s.lanes[x], s.lanes[x].reading.id);
      assert s.lanes[x].reading.id !in LostSet(s);
    }
  }

  lemma OpenLosesNone(kind: Kind, s: System, x: string)
    requires CanStep(kind, s, Open(x))
    ensures LostSet(Next(kind, s, Open(x))) == LostSet(s)
  {
    var s' := Next(kind, s, Open(x));
    assert forall y :: y in s.lanes ==> y in s'.lanes && s'.lanes[y] == s.lanes[y];
    assert forall id: nat :: !Owns(NEW_LANE, id);
    forall id: nat
      ensures Lost(s', id) <==> Lost(s, id)
    {
    }
  }

  lemma StepLoses(kind: Kind, s: System, step: Step)
    requires Inv(kind, s) && CanStep(kind, s, step)
    ensures |LostSet(Next(kind, s, step))| == |LostSet(s)| + if step.On? && step.action.Overrun? then 1 else 0
  {
    match step
    case On(x, a) => OnLosesMany(kind, s, x, a);
    case Open(x) => OpenLosesNone(kind, s, x);
    case Forget(_) => assert LostSet(Next(kind, s, step)) == LostSet(s);
  }

  /** Conservation: the pool and the sessions hold every buffer except one for each overrun. */
  lemma {:induction false} LostAreOverruns(kind: Kind, run: seq<Step>)
    ensures |LostSet(Exec(kind, run))| == Overruns(kind, run)
  {
    if run == [] {
      assert LostSet(Exec(kind, run)) == {};
    } else {
      var before, step := Exec(kind, run[..|run| - 1]), run[|run| - 1];
      LostAreOverruns(kind, run[..|run| - 1]);
      RunKeepsInv(kind, run[..|run| - 1]);
      if CanStep(kind, before, step) {
        StepLoses(kind, before, step);
      }
    }
  }

  /** In the data direction nothing overruns, so no buffer is ever lost. */
  lemma {:induction false} ForwardLosesNone(run: seq<Step>)
    ensures Overruns(Forward, run) == 0 && LostSet(Exec(Forward, run)) == {}
  {
    LostAreOverruns(Forward, run);
    if run != [] {
      ForwardLosesNone(run[..|run| - 1]);
      if run[|run| - 1].On? && run[|run| - 1].action.Overrun? && Admits(Forward, run[|run| - 1].action.frame) {
        AdmittedFits(Forward, run[|run| - 1].action.frame);
      }
    }
  }

  // ----- pooled buffers and channels -----

  /** Pooled buffers have full length again, and a channel holds at most 4 frames forward and 16 in reverse. */
  ghost predicate Bounded(kind: Kind, s: System) {
    && (forall id :: id in s.memory.free ==> id in s.memory.cells && s.memory.cells[id].len == Capacity(kind))
    && (forall x :: x in s.lanes ==> |s.lanes[x].queue| <= if kind == Forward then 4 else 16)
  }

  lemma ActKeepsBounded(kind: Kind, m: Memory, l: Lane, a: Action)
    requires Cells(kind, m) && Exclusive(m, l) && CanAct(kind, m, l, a)
    requires forall id :: id in m.free ==> m.cells[id].len == Capacity(kind)
    ensures var (m', l') := Act(kind, m, l, a);
            && (forall id :: id in m'.free ==> id in m'.cells && m'.cells[id].len == Capacity(kind))
            && |l'.queue| <= if a.PushAccepted? then Depth(kind) else |l.queue|
  {
    if a.Fill? {
      assert Owns(l, l.reading.id);
    }
  }

  lemma OnKeepsBounded(kind: Kind, s: System, x: string, a: Action)
    requires Inv(kind, s) && Bounded(kind, s) && CanStep(kind, s, On(x, a))
    ensures Bounded(kind, Next(kind, s, On(x, a)))
  {
    ActKeepsBounded(kind, s.memory, s.lanes[x], a);
  }

  lemma {:induction false} RunIsBounded(kind: Kind, run: seq<Step>)
    ensures Bounded(kind, Exec(kind, run))
  {
    if run == [] {
    } else {
      var before, step := Exec(kind, run[..|run| - 1]), run[|run| - 1];
      RunIsBounded(kind, run[..|run| - 1]);
      RunKeepsInv(kind, run[..|run| - 1]);
      if CanStep(kind, before, step) && step.On? {
        OnKeepsBounded(kind, before, step.session, step.action);
      }
    }
  }

  // ----- dropped frames -----

  /** A frame that did not reach the channel: it was not queued, or it did not fit its buffer. */
  predicate Drops(a: Action) {
    a.PushFailed? || a.Overrun?
  }

  /** How often a session dropped a frame, and how many reading handlers it had. */
  datatype Tally = Tally(drops: nat, readers: nat)

  function Counted(t: Tally, step: Step, x: string): Tally {
    match step
    case Open(y) => if y == x then t.(readers := t.readers + 1) else t
    case Forget(_) => t
    case On(y, a) =>
      if y != x then t
      else if Drops(a) then t.(drops := t.drops + 1)
      else if a.AttachReader? then t.(readers := t.readers + 1)
      else t
  }

  /** The tally over the possible steps of a run. */
  ghost function Count(kind: Kind, run: seq<Step>, x: string): Tally {
    if run == [] then Tally(0, 0)
    else
      var t := Count(kind, run[..|run| - 1], x);
      if CanStep(kind, Exec(kind, run[..|run| - 1]), run[|run| - 1]) then Counted(t, run[|run| - 1], x) else t
  }

  /** No reading handler outlives a frame it dropped. */
  ghost predicate OneDropEach(s: System, x: string, t: Tally) {
    && (x !in s.lanes ==> t == Tally(0, 0))
    && (x in s.lanes ==>
          && (!s.lanes[x].reading.Idle? ==> s.lanes[x].readerAlive)
          && t.drops + (if s.lanes[x].readerAlive then 1 else 0) <= t.readers)
  }

  lemma StepKeepsOneDrop(kind: Kind, s: System, step: Step, x: string, t: Tally)
    requires CanStep(kind, s, step) && OneDropEach(s, x, t)
    ensures OneDropEach(Next(kind, s, step), x, Counted(t, step, x))
  {
  }

  /** So a session drops at most one frame for each reading handler it had. */
  lemma {:induction false} DropsBounded(kind: Kind, run: seq<Step>, x: string)
    ensures OneDropEach(Exec(kind, run), x, Count(kind, run, x))
    ensures Count(kind, run, x).drops <= Count(kind, run, x).readers
  {
    if run == [] {
    } else {
      var before, step := Exec(kind, run[..|run| - 1]), run[|run| - 1];
      DropsBounded(kind, run[..|run| - 1], x);
      if CanStep(kind, before, step) {
        StepKeepsOneDrop(kind, before, step, x, Count(kind, run[..|run| - 1], x));
      }
    }
  }
}
