/** The shared rings whose length never changes: chat messages and commands between
    sessions. */
module FixedQueue {
  import opened Ring

  const QUEUE_LEN: nat := 256

  /** Every reader has the place it had, and nothing has cut it off from it. */
  ghost predicate PlacesKept<T>(before: Moment<T>, after: Moment<T>) {
    && NobodyMoved(before, after)
    && (forall rd :: Unbroken(before.ring, before.trace, rd) ==> Unbroken(after.ring, after.trace, rd))
  }

  class Queue<T> {
    var generation: nat
    var currOffset: nat
    var queueLen: nat
    var updates: seq<T>
    ghost var trace: Trace<T>

    ghost function View(): Ring<T>
      reads this
    {
      Ring(generation, currOffset, queueLen, queueLen, updates)
    }

    ghost function Now(): Moment<T>
      reads this
    {
      Moment(View(), trace)
    }

    ghost predicate Valid()
      reads this
    {
      Inv(View(), trace)
    }

    /** `create_chat_queue`, `create_cmd_queue`: a header that makes no sense is reset. */
    constructor Create(generation0: nat, currOffset0: nat, queueLen0: nat, file: seq<T>)
      requires |file| == QUEUE_LEN
      ensures Valid() && queueLen == QUEUE_LEN && updates == file
      ensures (generation, currOffset)
           == if 0 < generation0 < 0x1000_0000 && queueLen0 == 256 && currOffset0 < 256
              then (generation0, currOffset0) else (2, 0)
    {
      generation, currOffset, queueLen, updates := generation0, currOffset0, queueLen0, file;
      trace := Trace([], map[]);
      new;
      if generation == 0 || generation > 0x0FFF_FFFF || queueLen != QUEUE_LEN || currOffset >= QUEUE_LEN {
        generation := 2;
        currOffset := 0;
        queueLen := QUEUE_LEN;
      }
      trace := FoundTrace(View());
    }

    /** The next slot is filled and the offset moves on; the caller holds the lock. */
    method Put(u: T)
      requires Valid()
      modifies this
      ensures Valid() && queueLen == old(queueLen)
      ensures View() == Append(old(View()), u) && trace == AppendTrace(old(View()), old(trace), u)
      ensures trace.hist == old(trace.hist) + [u]
      ensures PlacesKept(old(Now()), Now())
    {
      ghost var before := View();
      WriteKeepsInv(before, trace, WAppend(u));
      trace := AppendTrace(before, trace, u);
      updates := updates[currOffset := u];
      currOffset := currOffset + 1;
      if currOffset >= queueLen {
        currOffset := 0;
        generation := generation + 1;
      }
    }
  }

  class Reading<T> {
    var lastId: int
    var lastGeneration: nat

    ghost function Place(): Reader
      reads this
    {
      Reader(lastId, lastGeneration)
    }

    ghost predicate Valid(q: Queue<T>)
      reads this, q
    {
      q.Valid() && Tracks(q.View(), q.trace, Place())
    }

    /** Nothing but being overtaken can have cost it its place. */
    ghost predicate Uncut(q: Queue<T>)
      reads this, q
    {
      Unbroken(q.View(), q.trace, Place())
    }

    /** How many entries it has behind it, counted from the first one ever. */
    ghost function At(q: Queue<T>): (n: nat)
      requires Valid(q)
      reads this, q
      ensures n <= |q.trace.hist|
    {
      assert Position(q.trace, Place()) >= 0 by { ReadIsExact(q.View(), q.trace, Place()); }
      Position(q.trace, Place())
    }

    constructor (q: Queue<T>)
      requires q.Valid()
      ensures Valid(q) && Uncut(q) && At(q) == |q.trace.hist|
    {
      MarkTracks(q.View(), q.trace);
      lastId, lastGeneration := q.currOffset, q.generation;
    }

    /** `set_last_chat_queue_id`, `set_last_cmd_queue_id` */
    method SetLast(q: Queue<T>)
      requires q.Valid()
      modifies this
      ensures Valid(q) && Uncut(q) && At(q) == |q.trace.hist|
    {
      MarkTracks(q.View(), q.trace);
      lastId, lastGeneration := q.currOffset, q.generation;
    }

    /** One entry: the next one ever appended, unless there is none, or unless the reader
        has been overtaken and starts again at the end. */
    method Next(q: Queue<T>) returns (r: ReadResult<T>)
      requires Valid(q)
      modifies this
      ensures Valid(q)
      ensures match r
              case Got(u, _) => old(At(q)) < |q.trace.hist| && u == q.trace.hist[old(At(q))] && At(q) == old(At(q)) + 1
              case Drained => old(At(q)) == |q.trace.hist| && At(q) == old(At(q))
              case Overflow => At(q) == |q.trace.hist|
      ensures r.Overflow? <==> !StillThere(old(q.View()), old(Place()))
      ensures r.Got? ==> StillThere(q.View(), Place())
      ensures old(Uncut(q)) ==> Uncut(q) && (r.Overflow? <==> |q.trace.hist| - old(At(q)) >= q.queueLen)
    {
      ReadIsExact(q.View(), q.trace, Place());
      if Uncut(q) { FixedLengthOverflow(q.View(), q.trace, Place()); }
      if lastGeneration != q.generation {
        var isok := false;
        if lastGeneration == q.generation - 1 {
          if q.currOffset < lastId { isok := true; }
        }
        if !isok {
          SetLast(q);
          return Overflow;
        }
      }
      if lastId == q.currOffset { return Drained; }
      var upd := q.updates[lastId];
      lastId := lastId + 1;
      if lastId == q.queueLen {
        lastGeneration := lastGeneration + 1;
        lastId := 0;
      }
      r := Got(upd, Reader(lastId, lastGeneration));
    }
  }
}
