/**
 The relay's data path: pumps that borrow buffers from a shared pool, pass them through bounded channels and
 return them. Buffers are memory cells with identities, reused in place, so aliasing is visible to the proof.
 Any number of sessions share one pool. `Forward` is the data direction, `Backward` the ACK direction.
 */
module PooledRelay {
  import opened Bytes
  import opened Framing

  datatype Kind = Forward | Backward

  function Capacity(kind: Kind): nat {
    match kind
    case Forward => BUFFER_SIZE
    case Backward => ACK_BUFFER_SIZE
  }

  /** The channel's buffer length. */
  function Depth(kind: Kind): nat {
    match kind
    case Forward => 4
    case Backward => 16
  }

  /** The frames that pass a reading pump's checks. */
  predicate Admits(kind: Kind, frame: seq<byte>) {
    match kind
    case Forward => RelayForwards(frame)
    case Backward => RelayReturns(frame)
  }

  /** The frames that a full-length buffer can be resliced to. */
  predicate Fits(kind: Kind, frame: seq<byte>) {
    |frame| <= Capacity(kind)
  }

  /** Of the admitted frames, forward all fit, and in reverse exactly those of header length. */
  lemma AdmittedFits(kind: Kind, frame: seq<byte>)
    requires Admits(kind, frame)
    ensures Fits(kind, frame) <==> kind == Forward || |frame| == ACK_BUFFER_SIZE
  {
  }

  /** A pool buffer: its backing array and the length it is sliced to. */
  datatype Buffer = Buffer(bytes: seq<byte>, len: nat)

  function Content(b: Buffer): seq<byte> {
    if b.len <= |b.bytes| then b.bytes[..b.len] else b.bytes
  }

  datatype Reading = Idle | Got(id: nat) | Filled(id: nat, frame: seq<byte>)

  datatype Writing = Free | Taken(id: nat) | Written(id: nat, ok: bool)

  /**
   One direction of one session: the channel, what the reading and the writing pump hold, and, for the
   statements, the frames the channel accepted, the frames given to a socket with their outcome, and how many
   handlers have written so far. A handler that ends may be followed by another, one at a time.
   */
  datatype Lane = Lane(
    queue: seq<nat>, reading: Reading, writing: Writing, readerAlive: bool, writerAlive: bool,
    closed: bool, draining: bool, accepted: seq<seq<byte>>, log: seq<(seq<byte>, bool)>,
    writers: nat)

  const NEW_LANE: Lane := Lane([], Idle, Free, true, true, false, false, [], [], 1)

  datatype Memory = Memory(cells: map<nat, Buffer>, free: set<nat>)

  datatype Action =
    | Get(id: nat)
    | Fill(frame: seq<byte>)
    | Overrun(frame: seq<byte>)
    | PushAccepted
    | PushFailed
    | Take
    | Write(ok: bool)
    | PutBack
    | Close
    | StartDrain
    | EndReader
    | AttachReader
    | EndWriter
    | AttachWriter

  // ----- one action on one lane -----

  predicate CanAct(kind: Kind, m: Memory, l: Lane, a: Action) {
    match a
    case Get(id) => l.readerAlive && l.reading == Idle && (id in m.free || id !in m.cells)
    case Fill(frame) => l.reading.Got? && l.reading.id in m.cells && Admits(kind, frame) && Fits(kind, frame)
    case Overrun(frame) => l.reading.Got? && Admits(kind, frame) && !Fits(kind, frame)
    case PushAccepted => l.reading.Filled? && |l.queue| < Depth(kind)
    case PushFailed => l.reading.Filled? && l.reading.id in m.cells
    case Take => l.writerAlive && l.writing == Free && l.queue != []
    case Write(_) => l.writing.Taken? && l.writing.id in m.cells
    case PutBack => l.writing.Written? && l.writing.id in m.cells
    case Close => true
    case StartDrain => kind == Backward && l.closed && l.writerAlive && l.writing == Free
    case EndReader => l.readerAlive && l.reading == Idle
    case AttachReader => !l.readerAlive && l.reading == Idle && !l.closed
    case EndWriter => l.writerAlive && l.writing == Free
    case AttachWriter => !l.writerAlive && l.writing == Free && !l.closed && !l.draining
  }

  /** `Put`: back to full length, into the pool. */
  function Return(kind: Kind, m: Memory, id: nat): Memory
    requires id in m.cells
  {
    Memory(m.cells[id := m.cells[id].(len := Capacity(kind))], m.free + {id})
  }

  /** `copy` into a resliced buffer overwrites the front and leaves the rest. */
  function Overwrite(b: Buffer, frame: seq<byte>): Buffer {
    Buffer(frame + if |frame| <= |b.bytes| then b.bytes[|frame|..] else [], |frame|)
  }

  function NewBuffer(kind: Kind): Buffer {
    Buffer(seq(Capacity(kind), _ => 0 as byte), Capacity(kind))
  }

  function Pushed(l: Lane): Lane
    requires l.reading.Filled?
  {
    l.(queue := l.queue + [l.reading.id], reading := Idle, accepted := l.accepted + [l.reading.frame])
  }

  function Act(kind: Kind, m: Memory, l: Lane, a: Action): (Memory, Lane)
    requires CanAct(kind, m, l, a)
  {
    match a
    case Get(id) =>
      (Memory(if id in m.cells then m.cells else m.cells[id := NewBuffer(kind)], m.free - {id}),
       l.(reading := Got(id)))
    case Fill(frame) =>
      (m.(cells := m.cells[l.reading.id := Overwrite(m.cells[l.reading.id], frame)]),
       l.(reading := Filled(l.reading.id, frame)))
    case Overrun(_) => (m, l.(reading := Idle, readerAlive := false))
    case PushAccepted => (m, Pushed(l))
    case PushFailed => (Return(kind, m, l.reading.id), l.(reading := Idle, readerAlive := false))
    case Take => (m, l.(queue := l.queue[1..], writing := Taken(l.queue[0])))
    case Write(ok) =>
      var frame := Content(m.cells[l.writing.id]);
      (m, l.(writing := Written(l.writing.id, ok), log := l.log + [(frame, ok)]))
    case PutBack => (Return(kind, m, l.writing.id), l.(writing := Free, writerAlive := l.writing.ok || l.draining))
    case Close => (m, l.(closed := true))
    case StartDrain => (m, l.(draining := true))
    case EndReader => (m, l.(readerAlive := false))
    case AttachReader => (m, l.(readerAlive := true))
    case EndWriter => (m, l.(writerAlive := false))
    case AttachWriter => (m, l.(writerAlive := true, writers := l.writers + 1))
  }

  // ----- ownership and order, for one lane -----

  predicate Owns(l: Lane, id: nat) {
    id in l.queue || (!l.reading.Idle? && l.reading.id == id) || (!l.writing.Free? && l.writing.id == id)
  }

  function Contents(m: Memory, ids: seq<nat>): (c: seq<seq<byte>>)
    requires forall i :: i in ids ==> i in m.cells
    ensures |c| == |ids| && forall k :: 0 <= k < |ids| ==> c[k] == Content(m.cells[ids[k]])
  {
    seq(|ids|, k requires 0 <= k < |ids| => Content(m.cells[ids[k]]))
  }

  function Frames(log: seq<(seq<byte>, bool)>): (f: seq<seq<byte>>)
    ensures |f| == |log| && forall k :: 0 <= k < |log| ==> f[k] == log[k].0
  {
    seq(|log|, k requires 0 <= k < |log| => log[k].0)
  }

  /** The frames successfully written to the socket. */
  function Delivered(log: seq<(seq<byte>, bool)>): seq<seq<byte>> {
    if log == [] then []
    else
      var rest := Delivered(log[..|log| - 1]);
      if log[|log| - 1].1 then rest + [log[|log| - 1].0] else rest
  }

  /** What the writing pump took from the channel but has not given to the socket. */
  function InHand(l: Lane): seq<nat> {
    if l.writing.Taken? then [l.writing.id] else []
  }

  ghost predicate Cells(kind: Kind, m: Memory) {
    && (forall id :: id in m.free ==> id in m.cells)
    && (forall id :: id in m.cells ==> |m.cells[id].bytes| == Capacity(kind) && m.cells[id].len <= Capacity(kind))
  }

  /** No buffer is in two places of the lane, and none it holds is in the pool. */
  ghost predicate Exclusive(m: Memory, l: Lane) {
    && (forall i, j :: 0 <= i < j < |l.queue| ==> l.queue[i] != l.queue[j])
    && (!l.reading.Idle? ==> l.reading.id !in l.queue)
    && (!l.writing.Free? ==> l.writing.id !in l.queue)
    && (!l.reading.Idle? && !l.writing.Free? ==> l.reading.id != l.writing.id)
    && (forall id :: Owns(l, id) ==> id in m.cells && id !in m.free)
  }

  /** The accepted frames are those logged, then the one in hand, then those in the channel, byte for byte. */
  ghost predicate Fifo(m: Memory, l: Lane)
    requires Exclusive(m, l)
  {
    && (l.reading.Filled? ==> Content(m.cells[l.reading.id]) == l.reading.frame)
    && l.accepted == Frames(l.log) + Contents(m, InHand(l)) + Contents(m, l.queue)
  }

  /** How many writes failed. */
  function Failures(log: seq<(seq<byte>, bool)>): nat {
    if log == [] then 0 else Failures(log[..|log| - 1]) + if log[|log| - 1].1 then 0 else 1
  }

  /** The present handler has not failed a write yet. */
  predicate Clean(l: Lane) {
    l.writerAlive && !(l.writing.Written? && !l.writing.ok)
  }

  /** Outside a drain a handler ends with its first failed write, so each loses at most one frame. */
  ghost predicate OneLossEach(l: Lane) {
    !l.draining ==>
      && (l.writing != Free ==> l.writerAlive)
      && Failures(l.log) + (if Clean(l) then 1 else 0) <= l.writers
  }

  /** As long as there was one handler only, nothing was written after a failure. */
  ghost predicate StopsOnFailure(l: Lane) {
    !l.draining && l.writers <= 1 ==>
      && (forall k :: 0 <= k < |l.log| - 1 ==> l.log[k].1)
      && (l.log != [] && !l.log[|l.log| - 1].1 ==>
          (l.writing.Written? && !l.writing.ok) || (l.writing == Free && !l.writerAlive))
      && (l.writing.Written? ==> l.log != [] && l.log[|l.log| - 1].1 == l.writing.ok)
  }

  ghost predicate LaneInv(kind: Kind, m: Memory, l: Lane) {
    Cells(kind, m) && Exclusive(m, l) && Fifo(m, l) && StopsOnFailure(l) && OneLossEach(l)
  }

  lemma ActKeepsStops(kind: Kind, m: Memory, l: Lane, a: Action)
    requires StopsOnFailure(l) && OneLossEach(l) && CanAct(kind, m, l, a)
    ensures StopsOnFailure(Act(kind, m, l, a).1)
  {
  }

  lemma ActKeepsLosses(kind: Kind, m: Memory, l: Lane, a: Action)
    requires OneLossEach(l) && CanAct(kind, m, l, a)
    ensures OneLossEach(Act(kind, m, l, a).1)
  {
    if a.Write? {
      var l' := Act(kind, m, l, a).1;
      assert l'.log[..|l'.log| - 1] == l.log;
    }
  }

  lemma FillKeepsCells(kind: Kind, m: Memory, l: Lane, frame: seq<byte>)
    requires Cells(kind, m) && CanAct(kind, m, l, Fill(frame))
    ensures Cells(kind, Act(kind, m, l, Fill(frame)).0)
    ensures Content(Act(kind, m, l, Fill(frame)).0.cells[l.reading.id]) == frame
  {
  }

  lemma TakeKeepsExclusive(m: Memory, l: Lane)
    requires Exclusive(m, l) && l.writing == Free && l.queue != []
    ensures Exclusive(m, l.(queue := l.queue[1..], writing := Taken(l.queue[0])))
  {
    assert l.queue == [l.queue[0]] + l.queue[1..];
  }

  lemma ReturnKeepsExclusive(kind: Kind, m: Memory, l: Lane, l': Lane, id: nat)
    requires Cells(kind, m) && Exclusive(m, l) && id in m.cells
    requires l'.queue == l.queue && !Owns(l', id)
    requires l'.reading == l.reading || l'.reading.Idle?
    requires l'.writing == l.writing || l'.writing.Free?
    ensures Cells(kind, Return(kind, m, id)) && Exclusive(Return(kind, m, id), l')
  {
    forall i | Owns(l', i)
      ensures i in Return(kind, m, id).cells && i !in Return(kind, m, id).free
    {
      assert Owns(l, i);
    }
  }

  lemma PushKeepsExclusive(m: Memory, l: Lane)
    requires Exclusive(m, l) && l.reading.Filled?
    ensures Exclusive(m, Pushed(l))
  {
  }

  lemma SameContents(m: Memory, m': Memory, ids: seq<nat>)
    requires forall i :: i in ids ==> i in m.cells && i in m'.cells && m'.cells[i] == m.cells[i]
    ensures Contents(m', ids) == Contents(m, ids)
  {
  }

  /** Actions that move no frame keep the order. */
  lemma QuietKeepsFifo(m: Memory, m': Memory, l: Lane, l': Lane)
    requires Exclusive(m, l) && Fifo(m, l) && Exclusive(m', l')
    requires l'.queue == l.queue && l'.accepted == l.accepted && l'.log == l.log && InHand(l') == InHand(l)
    requires forall i :: i in l.queue || i in InHand(l) ==> m'.cells[i] == m.cells[i]
    requires l'.reading.Filled? ==> Content(m'.cells[l'.reading.id]) == l'.reading.frame
    ensures Fifo(m', l')
  {
    assert forall i :: i in InHand(l) ==> Owns(l, i) && Owns(l', i);
    SameContents(m, m', InHand(l));
    SameContents(m, m', l.queue);
  }

  lemma PushKeepsFifo(m: Memory, l: Lane)
    requires Exclusive(m, l) && Fifo(m, l) && l.reading.Filled?
    ensures var l' := Pushed(l);
            Exclusive(m, l') && Fifo(m, l')
  {
    PushKeepsExclusive(m, l);
    assert forall i :: i in InHand(l) ==> Owns(l, i);
    assert Contents(m, l.queue + [l.reading.id]) == Contents(m, l.queue) + [l.reading.frame];
  }

  lemma ContentsHead(m: Memory, ids: seq<nat>)
    requires ids != [] && forall i :: i in ids ==> i in m.cells
    ensures Contents(m, ids) == [Content(m.cells[ids[0]])] + Contents(m, ids[1..])
  {
  }

  lemma Reassociate<T>(a: seq<T>, x: T, b: seq<T>)
    ensures a + [] + ([x] + b) == a + [x] + b
  {
  }

  lemma TakeKeepsFifo(m: Memory, l: Lane)
    requires Exclusive(m, l) && Fifo(m, l) && l.writing == Free && l.queue != []
    ensures var l' := l.(queue := l.queue[1..], writing := Taken(l.queue[0]));
            Exclusive(m, l') && Fifo(m, l')
  {
    TakeKeepsExclusive(m, l);
    ContentsHead(m, l.queue);
    Reassociate(Frames(l.log), Content(m.cells[l.queue[0]]), Contents(m, l.queue[1..]));
    var l' := l.(queue := l.queue[1..], writing := Taken(l.queue[0]));
    assert Contents(m, InHand(l)) == [];
    assert Contents(m, InHand(l')) == [Content(m.cells[l.queue[0]])];
  }

  lemma FramesAppend(log: seq<(seq<byte>, bool)>, frame: seq<byte>, ok: bool)
    ensures Frames(log + [(frame, ok)]) == Frames(log) + [frame]
  {
  }

  lemma WriteKeepsExclusive(m: Memory, l: Lane, l': Lane)
    requires Exclusive(m, l) && l.writing.Taken? && l'.writing.Written? && l'.writing.id == l.writing.id
    requires l'.queue == l.queue && l'.reading == l.reading
    ensures Exclusive(m, l')
  {
    assert forall i :: Owns(l', i) ==> Owns(l, i);
  }

  lemma WriteKeepsFifo(m: Memory, l: Lane, ok: bool)
    requires Exclusive(m, l) && Fifo(m, l) && l.writing.Taken? && l.writing.id in m.cells
    ensures var l' := l.(writing := Written(l.writing.id, ok), log := l.log + [(Content(m.cells[l.writing.id]), ok)]);
            Exclusive(m, l') && Fifo(m, l')
  {
    var frame := Content(m.cells[l.writing.id]);
    var l' := l.(writing := Written(l.writing.id, ok), log := l.log + [(frame, ok)]);
    WriteKeepsExclusive(m, l, l');
    FramesAppend(l.log, frame, ok);
    assert Contents(m, InHand(l)) == [frame] && Contents(m, InHand(l')) == [];
  }

  lemma GetKeepsLane(kind: Kind, m: Memory, l: Lane, id: nat)
    requires LaneInv(kind, m, l) && CanAct(kind, m, l, Get(id))
    ensures var (m', l') := Act(kind, m, l, Get(id));
            Cells(kind, m') && Exclusive(m', l') && Fifo(m', l')
  {
    var (m', l') := Act(kind, m, l, Get(id));
    assert forall i :: Owns(l', i) ==> Owns(l, i) || i == id;
    QuietKeepsFifo(m, m', l, l');
  }

  lemma FillKeepsLane(kind: Kind, m: Memory, l: Lane, frame: seq<byte>)
    requires LaneInv(kind, m, l) && CanAct(kind, m, l, Fill(frame))
    ensures var (m', l') := Act(kind, m, l, Fill(frame));
            Cells(kind, m') && Exclusive(m', l') && Fifo(m', l')
  {
    var (m', l') := Act(kind, m, l, Fill(frame));
    FillKeepsCells(kind, m, l, frame);
    QuietKeepsFifo(m, m', l, l');
  }

  lemma OverrunKeepsLane(kind: Kind, m: Memory, l: Lane)
    requires LaneInv(kind, m, l) && l.reading.Got?
    ensures var l' := l.(reading := Idle, readerAlive := false); Exclusive(m, l') && Fifo(m, l')
  {
    var l' := l.(reading := Idle, readerAlive := false);
    assert forall i :: Owns(l', i) ==> Owns(l, i);
    QuietKeepsFifo(m, m, l, l');
  }

  /** Returning the buffer a pump holds, outside the channel's order. */
  lemma ReturnKeepsLane(kind: Kind, m: Memory, l: Lane, l': Lane, id: nat)
    requires LaneInv(kind, m, l) && id in m.cells
    requires l'.queue == l.queue && l'.accepted == l.accepted && l'.log == l.log && InHand(l') == InHand(l) &&
             !Owns(l', id)
    requires l'.reading == l.reading || l'.reading.Idle?
    requires l'.writing == l.writing || l'.writing.Free?
    ensures var m' := Return(kind, m, id);
            Cells(kind, m') && Exclusive(m', l') && Fifo(m', l')
  {
    ReturnKeepsExclusive(kind, m, l, l', id);
    assert forall i :: i in InHand(l') ==> Owns(l', i);
    QuietKeepsFifo(m, Return(kind, m, id), l, l');
  }

  lemma FlagsKeepLane(kind: Kind, m: Memory, l: Lane, l': Lane)
    requires LaneInv(kind, m, l)
    requires l' == l.(closed := l'.closed, draining := l'.draining, readerAlive := l'.readerAlive,
                      writerAlive := l'.writerAlive, writers := l'.writers)
    ensures Exclusive(m, l') && Fifo(m, l')
  {
    assert forall i :: Owns(l', i) ==> Owns(l, i);
    QuietKeepsFifo(m, m, l, l');
  }

  lemma WriteStepKeepsLane(kind: Kind, m: Memory, l: Lane, ok: bool)
    requires LaneInv(kind, m, l) && CanAct(kind, m, l, Write(ok))
    ensures var (m', l') := Act(kind, m, l, Write(ok));
            Cells(kind, m') && Exclusive(m', l') && Fifo(m', l')
  {
    WriteKeepsFifo(m, l, ok);
  }

  lemma ActKeepsLane(kind: Kind, m: Memory, l: Lane, a: Action)
    requires LaneInv(kind, m, l) && CanAct(kind, m, l, a)
    ensures LaneInv(kind, Act(kind, m, l, a).0, Act(kind, m, l, a).1)
  {
    ActKeepsStops(kind, m, l, a);
    ActKeepsLosses(kind, m, l, a);
    match a
    case Get(id) => GetKeepsLane(kind, m, l, id);
    case Fill(frame) => FillKeepsLane(kind, m, l, frame);
    case Overrun(_) => OverrunKeepsLane(kind, m, l);
    case PushAccepted => PushKeepsFifo(m, l);
    case PushFailed => ReturnKeepsLane(kind, m, l, l.(reading := Idle, readerAlive := false), l.reading.id);
    case Take => TakeKeepsFifo(m, l);
    case Write(ok) => WriteStepKeepsLane(kind, m, l, ok);
    case PutBack =>
      var l' := l.(writing := Free, writerAlive := l.writing.ok || l.draining);
      ReturnKeepsLane(kind, m, l, l', l.writing.id);
    case Close => FlagsKeepLane(kind, m, l, l.(closed := true));
    case StartDrain => FlagsKeepLane(kind, m, l, l.(draining := true));
    case EndReader => FlagsKeepLane(kind, m, l, l.(readerAlive := false));
    case AttachReader => FlagsKeepLane(kind, m, l, l.(readerAlive := true));
    case EndWriter => FlagsKeepLane(kind, m, l, l.(writerAlive := false));
    case AttachWriter => FlagsKeepLane(kind, m, l, l.(writerAlive := true, writers := l.writers + 1));
  }

  /** What an action leaves alone: every buffer that is neither free nor held by this lane. */
  lemma ActLeavesOthers(kind: Kind, m: Memory, l: Lane, a: Action, id: nat)
    requires Exclusive(m, l) && CanAct(kind, m, l, a)
    requires id in m.cells && id !in m.free && !Owns(l, id)
    ensures var (m', l') := Act(kind, m, l, a);
            id in m'.cells && m'.cells[id] == m.cells[id] && id !in m'.free && !Owns(l', id)
  {
  }

  // ----- all sessions together -----

  datatype System = System(memory: Memory, lanes: map<string, Lane>)

  datatype Step = Open(session: string) | On(session: string, action: Action) | Forget(id: nat)

  predicate CanStep(kind: Kind, s: System, step: Step) {
    match step
    case Open(session) => session !in s.lanes
    case On(session, a) => session in s.lanes && CanAct(kind, s.memory, s.lanes[session], a)
    case Forget(id) => id in s.memory.free
  }

  /** `Forget` is the garbage collector emptying part of the pool. */
  function Next(kind: Kind, s: System, step: Step): System
    requires CanStep(kind, s, step)
  {
    match step
    case Open(session) => s.(lanes := s.lanes[session := NEW_LANE])
    case On(session, a) =>
      var (m, l) := Act(kind, s.memory, s.lanes[session], a);
      System(m, s.lanes[session := l])
    case Forget(id) => s.(memory := Memory(s.memory.cells - {id}, s.memory.free - {id}))
  }

  ghost predicate Inv(kind: Kind, s: System) {
    && Cells(kind, s.memory)
    && (forall x :: x in s.lanes ==> LaneInv(kind, s.memory, s.lanes[x]))
    && (forall x, y, id :: x in s.lanes && y in s.lanes && x != y && Owns(s.lanes[x], id) ==> !Owns(s.lanes[y], id))
  }

  /** A lane keeps its invariant when its own buffers are left alone. */
  lemma LaneUndisturbed(kind: Kind, m: Memory, m': Memory, l: Lane)
    requires LaneInv(kind, m, l) && Cells(kind, m')
    requires forall id :: Owns(l, id) ==> id in m'.cells && m'.cells[id] == m.cells[id] && id !in m'.free
    ensures LaneInv(kind, m', l)
  {
    assert forall id :: id in InHand(l) ==> Owns(l, id);
    SameContents(m, m', InHand(l));
    SameContents(m, m', l.queue);
  }

  lemma OnKeepsInv(kind: Kind, s: System, session: string, a: Action)
    requires Inv(kind, s) && CanStep(kind, s, On(session, a))
    ensures Inv(kind, Next(kind, s, On(session, a)))
  {
    var l := s.lanes[session];
    var (m', l') := Act(kind, s.memory, l, a);
    ActKeepsLane(kind, s.memory, l, a);
    var s' := Next(kind, s, On(session, a));
    forall x | x in s.lanes && x != session
      ensures LaneInv(kind, m', s.lanes[x])
      ensures forall id :: Owns(s.lanes[x], id) ==> !Owns(l', id)
    {
      forall id | Owns(s.lanes[x], id)
        ensures id in m'.cells && m'.cells[id] == s.memory.cells[id] && id !in m'.free && !Owns(l', id)
      {
        ActLeavesOthers(kind, s.memory, l, a, id);
      }
      LaneUndisturbed(kind, s.memory, m', s.lanes[x]);
    }
  }

  lemma StepKeepsInv(kind: Kind, s: System, step: Step)
    requires Inv(kind, s) && CanStep(kind, s, step)
    ensures Inv(kind, Next(kind, s, step))
  {
    match step
    case Open(session) => OpenKeepsInv(kind, s, session);
    case On(session, a) => OnKeepsInv(kind, s, session, a);
    case Forget(id) => ForgetKeepsInv(kind, s, id);
  }

  lemma OpenKeepsInv(kind: Kind, s: System, session: string)
    requires Inv(kind, s) && CanStep(kind, s, Open(session))
    ensures Inv(kind, Next(kind, s, Open(session)))
  {
  }

  lemma ForgetKeepsInv(kind: Kind, s: System, id: nat)
    requires Inv(kind, s) && CanStep(kind, s, Forget(id))
    ensures Inv(kind, Next(kind, s, Forget(id)))
  {
    var s' := Next(kind, s, Forget(id));
    forall x | x in s.lanes
      ensures LaneInv(kind, s'.memory, s.lanes[x])
    {
      LaneUndisturbed(kind, s.memory, s'.memory, s.lanes[x]);
    }
  }

  /** The state after a run, or the state before the first step that was not possible. */
  function Exec(kind: Kind, run: seq<Step>): System {
    if run == [] then System(Memory(map[], {}), map[])
    else
      var before := Exec(kind, run[..|run| - 1]);
      if CanStep(kind, before, run[|run| - 1]) then Next(kind, before, run[|run| - 1]) else before
  }

  lemma {:induction false} RunKeepsInv(kind: Kind, run: seq<Step>)
    ensures Inv(kind, Exec(kind, run))
  {
    if run == [] {
    } else {
      RunKeepsInv(kind, run[..|run| - 1]);
      if CanStep(kind, Exec(kind, run[..|run| - 1]), run[|run| - 1]) {
        StepKeepsInv(kind, Exec(kind, run[..|run| - 1]), run[|run| - 1]);
      }
    }
  }

  /** A buffer that no lane holds and the pool has not got is lost: no step brings it back. */
  lemma LostStaysLost(kind: Kind, s: System, step: Step, id: nat)
    requires Inv(kind, s) && CanStep(kind, s, step)
    requires id in s.memory.cells && id !in s.memory.free && forall x :: x in s.lanes ==> !Owns(s.lanes[x], id)
    ensures var s' := Next(kind, s, step);
            id in s'.memory.cells && id !in s'.memory.free && forall x :: x in s'.lanes ==> !Owns(s'.lanes[x], id)
  {
    match step
    case On(session, a) => ActLeavesOthers(kind, s.memory, s.lanes[session], a, id);
    case Open(_) =>
    case Forget(_) =>
  }

  /** An admitted frame that does not fit stops its reading pump and loses the buffer taken for it, and nothing else. */
  lemma OverrunLosesBuffer(kind: Kind, run: seq<Step>, x: string, frame: seq<byte>)
    requires var s := Exec(kind, run); x in s.lanes && CanAct(kind, s.memory, s.lanes[x], Overrun(frame))
    ensures kind == Backward && |frame| > ACK_BUFFER_SIZE
    ensures var s := Exec(kind, run);
            var l := s.lanes[x];
            var s' := Next(kind, s, On(x, Overrun(frame)));
            && l.reading.id in s'.memory.cells && l.reading.id !in s'.memory.free
            && (forall y :: y in s'.lanes ==> !Owns(s'.lanes[y], l.reading.id))
            && s'.lanes[x] == l.(reading := Idle, readerAlive := false)
            && s'.memory == s.memory && (forall y :: y in s.lanes && y != x ==> s'.lanes[y] == s.lanes[y])
  {
    RunKeepsInv(kind, run);
    AdmittedFits(kind, frame);
    var s := Exec(kind, run);
    assert Owns(s.lanes[x], s.lanes[x].reading.id);
  }

  // ----- theorems -----

  /** Ownership over any run: no buffer is in the pool and in a lane, in two lanes, or in two places of one lane. */
  lemma BuffersNeverShared(kind: Kind, run: seq<Step>, x: string, y: string, id: nat)
    requires x in Exec(kind, run).lanes && y in Exec(kind, run).lanes && Owns(Exec(kind, run).lanes[x], id)
    ensures var s := Exec(kind, run);
            && id !in s.memory.free
            && (x != y ==> !Owns(s.lanes[y], id))
            && Exclusive(s.memory, s.lanes[x])
  {
    RunKeepsInv(kind, run);
  }

  lemma {:induction false} DeliveredAllOk(log: seq<(seq<byte>, bool)>)
    requires forall k :: 0 <= k < |log| ==> log[k].1
    ensures Delivered(log) == Frames(log)
  {
    if log == [] {
    } else {
      var n := |log| - 1;
      DeliveredAllOk(log[..n]);
      assert Frames(log) == Frames(log[..n]) + [log[n].0];
    }
  }

  /** `a` is `b` with some elements left out. */
  predicate Subsequence(a: seq<seq<byte>>, b: seq<seq<byte>>)
    decreases |b|
  {
    a == [] ||
    (b != [] &&
     var n := |b| - 1;
     (a[|a| - 1] == b[n] && Subsequence(a[..|a| - 1], b[..n])) || Subsequence(a, b[..n]))
  }

  /** What was delivered is what was written without the failures. */
  lemma {:induction false} DeliveredIsSubsequence(log: seq<(seq<byte>, bool)>)
    ensures Subsequence(Delivered(log), Frames(log)) && |Delivered(log)| + Failures(log) == |Frames(log)|
  {
    if log == [] {
    } else {
      var n := |log| - 1;
      DeliveredIsSubsequence(log[..n]);
      assert Frames(log)[..n] == Frames(log[..n]);
      if log[n].1 {
        assert Delivered(log)[..|Delivered(log)| - 1] == Delivered(log[..n]);
      }
    }
  }

  lemma LogIsPrefix(kind: Kind, m: Memory, l: Lane)
    requires LaneInv(kind, m, l)
    ensures Frames(l.log) <= l.accepted
    ensures !l.draining && l.writers <= 1 ==> Delivered(l.log) <= Frames(l.log)
  {
    if l.log != [] && !l.draining && l.writers <= 1 {
      var n := |l.log| - 1;
      DeliveredAllOk(l.log[..n]);
      assert Frames(l.log) == Frames(l.log[..n]) + [l.log[n].0];
    }
  }

  /** What the sockets of successive handlers were given, and what of it reached the other side. */
  ghost predicate FifoThroughHandlers(l: Lane) {
    && Frames(l.log) <= l.accepted
    && Subsequence(Delivered(l.log), Frames(l.log))
    && |Delivered(l.log)| + Failures(l.log) == |Frames(l.log)|
  }

  /**
   FIFO refinement: the frames written to the receiver's sockets are a byte-exact prefix of what PushForward accepted.
   Those that arrive are that prefix with at most one frame missing per handler, and a prefix under one handler.
   */
  lemma ForwardIsFifo(run: seq<Step>, x: string)
    requires x in Exec(Forward, run).lanes
    ensures var l := Exec(Forward, run).lanes[x];
            && FifoThroughHandlers(l) && Failures(l.log) <= l.writers
            && (l.writers <= 1 ==> Delivered(l.log) <= l.accepted)
  {
    RunKeepsInv(Forward, run);
    ForwardNeverDrains(run, x);
    var s := Exec(Forward, run);
    LogIsPrefix(Forward, s.memory, s.lanes[x]);
    DeliveredIsSubsequence(s.lanes[x].log);
  }

  lemma {:induction false} ForwardNeverDrains(run: seq<Step>, x: string)
    requires x in Exec(Forward, run).lanes
    ensures !Exec(Forward, run).lanes[x].draining
  {
    if run == [] {
    } else {
      var before := Exec(Forward, run[..|run| - 1]);
      if x in before.lanes {
        ForwardNeverDrains(run[..|run| - 1], x);
      }
    }
  }

  /**
   In reverse, where the drain goes on after a failed write, the frames given to the socket are still such a prefix.
   */
  lemma BackwardIsFifo(run: seq<Step>, x: string)
    requires x in Exec(Backward, run).lanes
    ensures var l := Exec(Backward, run).lanes[x];
            && FifoThroughHandlers(l) && (!l.draining ==> Failures(l.log) <= l.writers)
            && (!l.draining && l.writers <= 1 ==> Delivered(l.log) <= l.accepted)
            && (forall f :: f in l.accepted ==> RelayReturns(f) && |f| == ACK_BUFFER_SIZE)
  {
    RunKeepsInv(Backward, run);
    AcceptedWereAdmitted(Backward, run, x);
    var s := Exec(Backward, run);
    LogIsPrefix(Backward, s.memory, s.lanes[x]);
    DeliveredIsSubsequence(s.lanes[x].log);
  }

  ghost predicate AllAdmitted(kind: Kind, l: Lane) {
    && (forall f :: f in l.accepted ==> Admits(kind, f) && Fits(kind, f))
    && (l.reading.Filled? ==> Admits(kind, l.reading.frame) && Fits(kind, l.reading.frame))
  }

  lemma ActKeepsAdmitted(kind: Kind, m: Memory, l: Lane, a: Action)
    requires AllAdmitted(kind, l) && CanAct(kind, m, l, a)
    ensures AllAdmitted(kind, Act(kind, m, l, a).1)
  {
  }

  /** Only frames that were admitted and fitted their buffer are ever accepted. */
  lemma {:induction false} AcceptedWereAdmitted(kind: Kind, run: seq<Step>, x: string)
    requires x in Exec(kind, run).lanes
    ensures AllAdmitted(kind, Exec(kind, run).lanes[x])
  {
    if run == [] {
    } else {
      var before, step := Exec(kind, run[..|run| - 1]), run[|run| - 1];
      if x in before.lanes {
        AcceptedWereAdmitted(kind, run[..|run| - 1], x);
        if CanStep(kind, before, step) && step.On? && step.session == x {
          ActKeepsAdmitted(kind, before.memory, before.lanes[x], step.action);
        }
      }
    }
  }
}
