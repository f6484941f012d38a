/** The relay's buffers in place: shared slices, the pool they come from, and one direction of a pipe. */
module RelayBuffers {
  import opened Bytes
  import opened PooledRelay

  /** A buffer handed around by reference: a backing array and the length it is sliced to. */
  class Slice {
    const data: array<byte>
    var len: nat

    constructor (capacity: nat)
      ensures fresh(data) && data.Length == len == capacity
    {
      data := new byte[capacity](_ => 0);
      len := capacity;
    }

    function Content(): seq<byte>
      reads this, data
    {
      if len <= data.Length then data[..len] else data[..]
    }

    /** Reslices to the length of `frame` and copies it in. */
    method Fill(frame: seq<byte>)
      requires |frame| <= data.Length
      modifies this`len, data
      ensures Content() == frame
    {
      len := |frame|;
      for k := 0 to |frame|
        invariant data[..k] == frame[..k]
        modifies data
      {
        data[k] := frame[k];
      }
    }
  }

  /** No two slices share a backing array. */
  ghost predicate Separate(s: set<Slice>) {
    forall a, b :: a in s && b in s && a != b ==> a.data != b.data
  }

  class BufferPool {
    const capacity: nat
    var free: set<Slice>

    ghost predicate Valid()
      reads this, free
    {
      Separate(free) && forall b :: b in free ==> b.data.Length >= capacity == b.len
    }

    constructor (cap: nat)
      ensures Valid() && capacity == cap && free == {}
    {
      capacity := cap;
      free := {};
    }

    /** Any pooled buffer, or a new one; the pool no longer holds it. */
    method Get() returns (b: Slice)
      requires Valid()
      modifies this`free
      ensures Valid() && free == old(free) - {b} && (old(free) != {} ==> b in old(free))
      ensures b in old(free) || (fresh(b) && fresh(b.data) && b.data.Length == capacity)
      ensures b.data.Length >= capacity == b.len
    {
      if free == {} {
        b := new Slice(capacity);
      } else {
        b :| b in free;
        free := free - {b};
      }
    }

    method Put(b: Slice)
      requires Valid() && b !in free && Separate(free + {b})
      modifies this`free, b`len
      ensures Valid()
      ensures free == if b.data.Length >= capacity then old(free) + {b} else old(free)
    {
      if b.data.Length < capacity {
        return;
      }
      b.len := capacity;
      free := free + {b};
    }
  }

  /** What becomes of a frame that the reading pump got. */
  datatype Outcome = Refused | Overran | NotQueued | Queued

  /** One direction of a pipe with its two pumps' work per frame; the pool may serve other pipes as well. */
  class Direction {
    const kind: Kind
    const pool: BufferPool
    var queue: seq<Slice>
    var closed: bool

    ghost function Held(): set<Slice>
      reads this
    {
      set b | b in queue
    }

    /** No buffer is queued twice or pooled while queued, and no two share memory. */
    ghost predicate Valid()
      reads this, pool, pool.free, queue
    {
      && pool.Valid() && pool.capacity == Capacity(kind)
      && |queue| <= Depth(kind)
      && (forall i, j :: 0 <= i < j < |queue| ==> queue[i] != queue[j])
      && (forall b :: b in queue ==> b !in pool.free && b.data.Length == Capacity(kind))
      && (forall b :: b in pool.free ==> b.data.Length == Capacity(kind))
      && Separate(pool.free + Held())
    }

    /** The byte strings in the channel. */
    ghost function Frames(): (f: seq<seq<byte>>)
      reads this, queue, set b | b in queue :: b.data
      ensures |f| == |queue| && forall i :: 0 <= i < |f| ==> f[i] == queue[i].Content()
    {
      seq(|queue|, i requires 0 <= i < |queue| reads this, queue, set b | b in queue :: b.data => queue[i].Content())
    }

    constructor (k: Kind, p: BufferPool)
      requires p.Valid() && p.capacity == Capacity(k) && forall b :: b in p.free ==> b.data.Length == p.capacity
      ensures Valid() && kind == k && pool == p && Frames() == [] && !closed
    {
      kind, pool, queue, closed := k, p, [], false;
    }

    method Close()
      requires Valid()
      modifies this`closed
      ensures closed && Valid() && Frames() == old(Frames())
    {
      closed := true;
    }

    /** PushForward and PushBackward; `seenClosed` is the choice between a closed pipe and a free place. */
    method Push(b: Slice, seenClosed: bool) returns (ok: bool)
      requires Valid() && b !in pool.free && b !in queue
      requires Separate(pool.free + Held() + {b}) && b.data.Length == Capacity(kind)
      modifies this`queue
      ensures ok <==> old(|queue|) < Depth(kind) && !(closed && seenClosed)
      ensures Valid() && queue == if ok then old(queue) + [b] else old(queue)
      ensures Frames() == if ok then old(Frames()) + [b.Content()] else old(Frames())
    {
      if (closed && seenClosed) || |queue| >= Depth(kind) {
        return false;
      }
      queue := queue + [b];
      assert pool.free + Held() == pool.free + old(Held()) + {b};
      ok := true;
    }

    /** Gives a buffer that is not queued back to the pool. */
    method PutBack(b: Slice)
      requires Valid() && b !in pool.free && b !in queue
      requires Separate(pool.free + Held() + {b}) && b.data.Length == Capacity(kind)
      modifies pool`free, b`len
      ensures Valid() && Frames() == old(Frames())
      ensures pool.free == old(pool.free) + {b} && b.len == Capacity(kind)
    {
      pool.Put(b);
      assert pool.free + Held() == old(pool.free) + Held() + {b};
    }

    /** Borrows a buffer and copies the frame into it; what is queued stays as it is. */
    method Load(frame: seq<byte>) returns (b: Slice)
      requires Valid() && |frame| <= Capacity(kind)
      modifies pool`free, pool.free, set b | b in pool.free :: b.data
      ensures Valid() && Frames() == old(Frames())
      ensures b !in pool.free && b !in queue && b.data.Length == Capacity(kind)
      ensures Separate(pool.free + Held() + {b})
      ensures b in old(pool.free) || fresh(b)
      ensures pool.free == old(pool.free) - {b}
      ensures b.Content() == frame
    {
      b := pool.Get();
      assert forall q :: q in queue ==> q != b && q.data != b.data;
      label Got:
      b.Fill(frame);
      assert forall i :: 0 <= i < |queue| ==> queue[i].Content() == old@Got(queue[i].Content());
    }

    /**
     The reading pump's work for one frame. A frame that passes the checks but is longer than the buffer is an
     out-of-range reslice: the pump ends with the buffer in hand, which the pool never gets back.
     */
    method Accept(frame: seq<byte>, seenClosed: bool) returns (r: Outcome)
      requires Valid()
      modifies this`queue, pool`free, pool.free, set b | b in pool.free :: b.data
      ensures Valid()
      ensures r == Refused <==> !Admits(kind, frame)
      ensures r == Overran <==> Admits(kind, frame) && !Fits(kind, frame)
      ensures r == Queued <==>
                Admits(kind, frame) && Fits(kind, frame) && old(|queue|) < Depth(kind) && !(closed && seenClosed)
      ensures Frames() == if r == Queued then old(Frames()) + [frame] else old(Frames())
      ensures r == Overran ==> pool.free <= old(pool.free) && (old(pool.free) != {} ==> pool.free < old(pool.free))
      ensures r != Overran ==> old(pool.free + Held()) <= pool.free + Held()
    {
      if !Admits(kind, frame) {
        return Refused;
      }
      if !Fits(kind, frame) {
        TakeAndLose(frame);
        return Overran;
      }
      var b := Load(frame);
      var ok := Push(b, seenClosed);
      assert old(queue) <= queue && (ok ==> b in queue);
      if !ok {
        PutBack(b);
      }
      r := if ok then Queued else NotQueued;
    }

    /** The pump takes a buffer and ends before it gives it away. */
    method TakeAndLose(frame: seq<byte>)
      requires Valid() && !Fits(kind, frame)
      modifies pool`free
      ensures Valid() && Frames() == old(Frames())
      ensures pool.free <= old(pool.free) && (old(pool.free) != {} ==> pool.free < old(pool.free))
    {
      var b := pool.Get();
      assert |frame| > b.data.Length;
    }

    /** What Valid says about the oldest buffer and the others. */
    lemma HeadIsSeparate()
      requires Valid() && queue != []
      ensures queue[0] !in queue[1..] && Held() == (set b | b in queue[1..]) + {queue[0]}
      ensures forall i, j :: 0 <= i < j < |queue[1..]| ==> queue[1..][i] != queue[1..][j]
    {
      assert queue == [queue[0]] + queue[1..];
    }

    /** Receives the oldest buffer from the channel. */
    method Take() returns (b: Slice)
      requires Valid() && queue != []
      modifies this`queue
      ensures Valid() && b !in pool.free && b !in queue && b.data.Length == Capacity(kind)
      ensures Separate(pool.free + Held() + {b})
      ensures old(queue) == [b] + queue && [b.Content()] + Frames() == old(Frames())
    {
      HeadIsSeparate();
      b := queue[0];
      queue := queue[1..];
      assert pool.free + Held() + {b} == pool.free + old(Held());
    }

    /** The writing pump's work for one frame: what the socket is given, and the buffer goes back to the pool. */
    method Deliver() returns (frame: seq<byte>)
      requires Valid() && queue != []
      modifies this`queue, pool`free, queue
      ensures Valid()
      ensures [frame] + Frames() == old(Frames()) && old(queue[0]) in pool.free
      ensures pool.free + Held() == old(pool.free + Held())
    {
      var b := Take();
      frame := b.Content();
      PutBack(b);
    }
  }
}
