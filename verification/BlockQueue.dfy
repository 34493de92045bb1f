/** The block queue shared by all sessions of a level, and one session's use of it. */
module BlockQueue {
  import opened Ring
  import opened World

  const CHUNK: nat := 1024
  const RELOAD_DELAY: nat := 100

  class Queue {
    var generation: nat
    var currOffset: nat
    var queueLen: nat
    var lastQueueLen: nat
    var updates: seq<Update>
    /** How many slots this process has mapped. */
    var mmapCount: nat

    const totalBlocks: int
    /** Bytes of the last map download, and of one block change packet. */
    var mapDownloadSize: nat
    const srvBlockLen: nat

    ghost var trace: Trace<Update>

    ghost function View(): Ring<Update>
      reads this
    {
      Ring(generation, currOffset, queueLen, lastQueueLen, updates)
    }

    ghost function Now(): Moment<Update>
      reads this
    {
      Moment(View(), trace)
    }

    ghost predicate Valid()
      reads this
    {
      srvBlockLen > 0 && Inv(View(), trace)
    }

    /** Maps the file of a level, whatever its header says. */
    constructor Attach(header: Ring<Update>, totalBlocks: int, mapDownloadSize: nat, srvBlockLen: nat)
      requires srvBlockLen > 0
      ensures Valid() && fresh(this)
      ensures this.totalBlocks == totalBlocks && this.srvBlockLen == srvBlockLen
      ensures mmapCount == queueLen >= MIN_QUEUE
    {
      generation, currOffset := header.generation, header.currOffset;
      queueLen, lastQueueLen := header.queueLen, header.lastQueueLen;
      updates := header.slots;
      mmapCount := 0;
      this.totalBlocks, this.mapDownloadSize, this.srvBlockLen := totalBlocks, mapDownloadSize, srvBlockLen;
      trace := Trace([], map[]);
      new;
      var tail := CreateBlockQueue();
      OpenMakesUsable(header, totalBlocks, WantedLen(mapDownloadSize, srvBlockLen), tail);
      trace := FoundTrace(View());
    }

    /** Makes the mapped file hold `count` slots; a longer file is filled with zeros. */
    method MapSlots(count: nat) returns (ghost tail: seq<Update>)
      modifies this`updates
      ensures updates == old(updates) + tail && |updates| >= count
    {
      tail := if |updates| < count then seq(count - |updates|, _ => Update(0, 0, 0, 0)) else [];
      if |updates| < count {
        updates := updates + seq(count - |updates|, _ => Update(0, 0, 0, 0));
      }
    }

    /** A header that makes no sense is replaced. */
    method RepairHeader()
      modifies this`generation, this`currOffset, this`queueLen, this`lastQueueLen
      ensures View() == if LooksCorrupt(old(View()), totalBlocks) then Reinit(old(View())) else old(View())
      ensures (generation, currOffset, queueLen, lastQueueLen) == old(
                if generation == 0 || queueLen < 250 || currOffset >= queueLen
                   || (queueLen > 2048 && queueLen > totalBlocks)
                then (generation + 2, 0, 250, 250) else (generation, currOffset, queueLen, lastQueueLen))
    {
      if generation == 0 || queueLen < MIN_QUEUE || currOffset >= queueLen
         || (queueLen > STD_QUEUE && queueLen > totalBlocks) {
        generation := generation + 2;
        currOffset := 0;
        queueLen := MIN_QUEUE;
        lastQueueLen := MIN_QUEUE;
      }
    }

    /** The queue need not be longer than the map is quick to send: it holds as many updates
        as take the bytes of one download, and no more than two thousand beyond that. */
    method WantedSlots() returns (queueCount: nat)
      requires srvBlockLen > 0
      ensures queueCount >= MIN_QUEUE && queueCount >= mapDownloadSize / srvBlockLen
      ensures queueCount > MIN_QUEUE ==> queueCount <= mapDownloadSize / srvBlockLen + 2040
      // with eight slots more, the next whole number of 1024s above that, and 2048 at least
      ensures if mapDownloadSize / srvBlockLen <= 250 then queueCount == 250
              else (queueCount + 8) % 1024 == 0 && queueCount > mapDownloadSize / srvBlockLen
                   && (queueCount == 2040 || 2040 < queueCount <= mapDownloadSize / srvBlockLen + 1024)
      ensures queueCount == WantedLen(mapDownloadSize, srvBlockLen)
    {
      queueCount := MIN_QUEUE;
      if mapDownloadSize / srvBlockLen > queueCount {
        queueCount := mapDownloadSize / srvBlockLen;
        queueCount := queueCount + 8;
        queueCount := (queueCount + 1024) / 1024 * 1024;
        if queueCount < 2048 { queueCount := STD_QUEUE; }
        queueCount := queueCount - 8;
      }
    }

    /** `create_block_queue`: repair the header, then lengthen the ring if wanted. */
    method CreateBlockQueue() returns (ghost tail: seq<Update>)
      requires srvBlockLen > 0
      modifies this`generation, this`currOffset, this`queueLen, this`lastQueueLen, this`updates, this`mmapCount
      ensures Possible(old(View()), WOpen(totalBlocks, WantedLen(mapDownloadSize, srvBlockLen), tail))
      ensures View() == Open(old(View()), totalBlocks, WantedLen(mapDownloadSize, srvBlockLen), tail)
      ensures mmapCount == queueLen
    {
      tail := MapSlots(MIN_QUEUE);
      RepairHeader();
      var fileQueueCount := queueLen;
      var queueCount := WantedSlots();
      if fileQueueCount > queueCount { queueCount := fileQueueCount; }
      ghost var more := MapSlots(queueCount);
      tail := tail + more;
      if queueCount > queueLen { queueLen := queueCount; }
      if lastQueueLen == 0 { lastQueueLen := queueCount; }
      mmapCount := queueCount;
    }

    /** `check_block_queue`: follow a growth made by another process. */
    method CheckBlockQueue() returns (reopened: bool)
      requires Valid()
      modifies this
      ensures Valid() && mmapCount == queueLen && mapDownloadSize == old(mapDownloadSize)
      ensures trace.hist == old(trace.hist)
      ensures !reopened ==> View() == old(View()) && trace == old(trace)
      ensures reopened <==> old(mmapCount < queueLen)
      ensures NobodyMoved(old(Now()), Now())
    {
      if mmapCount == queueLen { return false; }
      if mmapCount > queueLen {
        mmapCount := queueLen;
        return false;
      }
      ghost var before, wanted := View(), WantedLen(mapDownloadSize, srvBlockLen);
      ghost var tail := CreateBlockQueue();
      WriteKeepsInv(before, trace, WOpen(totalBlocks, wanted, tail));
      trace := OpenTrace(before, trace, totalBlocks);
      reopened := true;
    }

    /** `prelocked_update`: append one update; the caller holds the lock. */
    method PrelockedUpdate(u: Update)
      requires Valid()
      modifies this
      ensures Valid() && View() == Append(old(View()), u)
      ensures trace == AppendTrace(old(View()), old(trace), u)
      ensures mmapCount == old(mmapCount) && mapDownloadSize == old(mapDownloadSize)
      ensures NobodyMoved(old(Now()), Now())
    {
      ghost var before := View();
      WriteKeepsInv(before, trace, WAppend(u));
      trace := AppendTrace(before, trace, u);
      var id := currOffset;
      updates := updates[id := u];
      currOffset := currOffset + 1;
      if currOffset >= queueLen {
        currOffset := 0;
        generation := generation + 1;
        lastQueueLen := queueLen;
      }
    }

    /** `send_update`: the same, taking the lock and checking the mapping first. */
    method SendUpdate(u: Update)
      requires Valid()
      modifies this
      ensures Valid()
      ensures trace.hist == old(trace.hist) + [u]
      ensures NobodyMoved(old(Now()), Now())
    {
      var _ := CheckBlockQueue();
      PrelockedUpdate(u);
    }

    /** "/reload all". */
    method ReloadAll()
      requires Valid()
      modifies this
      ensures Valid() && View() == Bump(old(View())) && trace == BumpTrace(old(View()), old(trace))
    {
      WriteKeepsInv(View(), trace, WBump);
      trace := BumpTrace(View(), trace);
      generation := generation + 2;
    }
  }

  class Session {
    var lastId: int
    var lastGeneration: nat
    var reloadPending: nat

    ghost function Place(): Reader
      reads this
    {
      Reader(lastId, lastGeneration)
    }

    /** Outside a pending reload, the session either has no position or a genuine one. */
    ghost predicate Valid(q: Queue)
      reads this, q
    {
      q.Valid() && (reloadPending == 0 && lastId >= 0 ==> Tracks(q.View(), q.trace, Place()))
    }

    constructor ()
      ensures Place() == NoPosition && reloadPending == 0
    {
      lastId, lastGeneration, reloadPending := -1, 0, 0;
    }

    method SetLastBlockQueueId(q: Queue)
      requires Valid(q)
      modifies this`lastId, this`lastGeneration, q
      ensures Valid(q) && q.trace.hist == old(q.trace.hist)
      ensures Place() == Mark(q.View()) && Tracks(q.View(), q.trace, Place())
      ensures Position(q.trace, Place()) == |q.trace.hist|
    {
      var _ := q.CheckBlockQueue();
      lastId := q.currOffset;
      lastGeneration := q.generation;
      MarkTracks(q.View(), q.trace);
    }

    method WipeLastBlockQueueId()
      modifies this`lastId, this`lastGeneration
      ensures Place() == NoPosition
    {
      lastId, lastGeneration := -1, 0;
    }

    /** A growth made by another process is followed; the position still holds. */
    method FollowGrowth(q: Queue)
      requires Valid(q) && reloadPending == 0 && lastId >= 0
      modifies q
      ensures Valid(q) && q.trace.hist == old(q.trace.hist)
      ensures Position(q.trace, Place()) == old(Position(q.trace, Place()))
      ensures Place() == old(Place())
      ensures 0 <= Position(q.trace, Place()) <= |q.trace.hist|
    {
      var _ := q.CheckBlockQueue();
      ReadIsExact(q.View(), q.trace, Place());
    }

    /** One trip through the locked part of the two loops below: the next update ever
        appended, or word that there is none, or that the place was lost. */
    method ReadSlot(q: Queue) returns (r: ReadResult<Update>)
      requires Valid(q) && reloadPending == 0 && lastId >= 0
      modifies this`lastId, this`lastGeneration
      ensures Valid(q)
      ensures r == Read(old(q.View()), old(Place()))
      ensures r.Overflow? <==> !StillThere(old(q.View()), old(Place()))
      ensures r.Overflow? ==> Place() == NoPosition
      ensures r.Got? ==> StillThere(q.View(), Place())
      ensures r.Drained? ==> Place() == old(Place()) && Position(q.trace, Place()) == |q.trace.hist|
      ensures r.Got? ==>
                var at := old(Position(q.trace, Place()));
                && lastId >= 0 && 0 <= at < |q.trace.hist|
                && r.update == q.trace.hist[at] && Position(q.trace, Place()) == at + 1
    {
      ReadIsExact(q.View(), q.trace, Place());
      if lastGeneration != q.generation {
        var isok := false;
        if lastGeneration == q.generation - 1 && q.queueLen == q.lastQueueLen {
          if q.currOffset < lastId { isok := true; }
        }
        if !isok {
          WipeLastBlockQueueId();
          return Overflow;
        }
      }
      if lastId == q.currOffset { return Drained; }
      var upd := q.updates[lastId];
      lastId := lastId + 1;
      if lastId == q.queueLen {
        lastGeneration := lastGeneration + 1;
        lastId := 0;
      }
      r := Got(upd, Reader(lastId, lastGeneration));
    }

    /** The start of `send_queued_blocks` while a reload is pending. */
    method CountDown(q: Queue, outputPending: bool, isAdmin: bool) returns (resend: bool)
      requires Valid(q) && reloadPending > 0
      modifies this, q
      ensures Valid(q) && q.trace.hist == old(q.trace.hist)
      ensures resend <==> old(reloadPending) == 1 && !outputPending
      ensures resend ==> reloadPending == 0 && lastId >= 0 && Position(q.trace, Place()) == |q.trace.hist|
      ensures !resend ==> q.View() == old(q.View()) && lastGeneration == old(lastGeneration)
      ensures outputPending ==> reloadPending == old(reloadPending) && lastId == old(lastId)
      ensures !outputPending && !resend ==>
                var less := old(reloadPending) - 1;
                && lastId == q.currOffset
                && reloadPending == if less > 6 && old(lastId) == q.currOffset then less - 5 else less
    {
      if outputPending { return false; }
      if reloadPending > 1 {
        reloadPending := reloadPending - 1;
        if reloadPending > 6 && lastId == q.currOffset { reloadPending := reloadPending - 5; }
        lastId := q.currOffset;
        return false;
      }
      if isAdmin { var _ := q.CheckBlockQueue(); }
      // The whole map is sent again from here, starting with a new position.
      SetLastBlockQueueId(q);
      reloadPending := 0;
      resend := true;
    }

    /** The loop of `send_queued_blocks`: at most CHUNK updates, unless the place is lost. */
    method ForwardSome(q: Queue) returns (sent: seq<Update>)
      requires Valid(q) && reloadPending == 0 && lastId >= 0
      modifies this, q
      ensures Valid(q) && q.trace.hist == old(q.trace.hist)
      ensures var start := old(Position(q.trace, Place()));
              && |sent| <= CHUNK && 0 <= start <= start + |sent| <= |q.trace.hist|
              && sent == q.trace.hist[start..start + |sent|]
              && (if StillThere(q.View(), old(Place())) then
                    reloadPending == 0 && lastId >= 0 && Position(q.trace, Place()) == start + |sent|
                    && (|sent| == CHUNK || start + |sent| == |q.trace.hist|)
                  else sent == [] && reloadPending == RELOAD_DELAY && lastId < 0)
    {
      hide Inv, PreviousRoundKept, Usable, Read, StillThere, Readable, Position;
      ghost var start := old(Position(q.trace, Place()));
      FollowGrowth(q);
      ghost var hist := q.trace.hist;
      sent := [];
      for counter := 0 to CHUNK
        invariant Valid(q) && reloadPending == 0 && lastId >= 0
        invariant |sent| == counter && Position(q.trace, Place()) == start + counter
        invariant 0 <= start && start + counter <= |hist| && sent == hist[start..start + counter]
        invariant if counter == 0 then Place() == old(Place())
                  else StillThere(q.View(), old(Place())) && StillThere(q.View(), Place())
        modifies this
      {
        var r := ReadSlot(q);
        match r {
          case Overflow =>
            reloadPending := RELOAD_DELAY;
            LostPlace(q);
            return;
          case Drained =>
            return;
          case Got(u, _) =>
            sent := sent + [u];
        }
      }
    }

    lemma LostPlace(q: Queue)
      requires q.Valid() && Place() == NoPosition
      ensures Valid(q) && lastId < 0
    {
    }

    /** `send_queued_blocks`.  `sent` is what goes to the client, in order; `resend`
        says that the whole map is due to be sent again.  Whether output is still
        queued for the client, and whether the player is an administrator, are
        parameters. */
    method SendQueuedBlocks(q: Queue, outputPending: bool, isAdmin: bool)
      returns (sent: seq<Update>, resend: bool)
      requires Valid(q)
      modifies this, q
      ensures Valid(q) && q.trace.hist == old(q.trace.hist)
      ensures old(reloadPending) > 0 || old(lastId) < 0 ==> sent == []
      ensures old(reloadPending) == 0 && old(lastId) >= 0 ==>
                var start := old(Position(q.trace, Place()));
                && |sent| <= CHUNK && 0 <= start <= start + |sent| <= |q.trace.hist|
                && sent == q.trace.hist[start..start + |sent|]
                && (if StillThere(q.View(), old(Place())) then
                      reloadPending == 0 && lastId >= 0 && Position(q.trace, Place()) == start + |sent|
                      && (|sent| == CHUNK || start + |sent| == |q.trace.hist|)
                    else sent == [] && reloadPending == RELOAD_DELAY && lastId < 0)
      ensures resend <==> old(reloadPending) == 1 && !outputPending
      ensures resend ==> reloadPending == 0 && lastId >= 0 && Position(q.trace, Place()) == |q.trace.hist|
    {
      sent, resend := [], false;
      if reloadPending > 0 {
        resend := CountDown(q, outputPending, isAdmin);
        return;
      }
      if lastId < 0 { return; }
      sent := ForwardSome(q);
    }

    /** `fetch_queued_blocks`: everything queued since the position was taken, or the
        part that could still be read before an overflow was noticed. */
    method FetchQueuedBlocks(q: Queue) returns (list: seq<Update>)
      requires Valid(q) && reloadPending == 0
      modifies this`lastId, this`lastGeneration, q
      ensures Valid(q) && q.trace.hist == old(q.trace.hist)
      ensures old(lastId) < 0 ==> list == []
      ensures old(lastId) >= 0 ==>
                var start := old(Position(q.trace, Place()));
                && start + |list| <= |q.trace.hist|
                && list == q.trace.hist[start..start + |list|]
                && (if StillThere(q.View(), old(Place())) then
                      lastId >= 0 && Position(q.trace, Place()) == start + |list| == |q.trace.hist|
                    else lastId < 0 && list == [])
    {
      hide Inv, PreviousRoundKept, Usable, Read, StillThere, Readable, Position;
      list := [];
      if lastId < 0 { return; }
      ghost var start := old(Position(q.trace, Place()));
      FollowGrowth(q);
      ghost var hist := q.trace.hist;
      while true
        invariant Valid(q) && reloadPending == 0 && lastId >= 0
        invariant Position(q.trace, Place()) == start + |list|
        invariant start + |list| <= |hist| && list == hist[start..start + |list|]
        invariant if list == [] then Place() == old(Place())
                  else StillThere(q.View(), old(Place())) && StillThere(q.View(), Place())
        modifies this`lastId, this`lastGeneration
        decreases |hist| - |list|
      {
        var r := ReadSlot(q);
        match r {
          case Overflow => return;
          case Drained => return;
          case Got(u, _) => list := list + [u];
        }
      }
    }
  }
}
