/** The shared ring of recent updates, as plain values.

    Writers append under a lock; every reader keeps a private position made of a
    slot number and a generation count, and is told to start again when its
    position may have been overwritten.  A `Trace` remembers everything that was
    ever appended, so that what a reader is handed can be compared with it. */
module Ring {

  const MIN_QUEUE: nat := 250
  const STD_QUEUE: nat := 2048

  datatype Ring<T> = Ring(
    generation: nat, currOffset: nat, queueLen: nat, lastQueueLen: nat, slots: seq<T>)

  /** A reader's private position; a negative `lastId` means "no position". */
  datatype Reader = Reader(lastId: int, lastGeneration: nat)

  const NoPosition := Reader(-1, 0)

  datatype ReadResult<T> = Overflow | Drained | Got(update: T, next: Reader)

  /** All updates ever appended, and where in that history each generation began. */
  datatype Trace<T> = Trace(hist: seq<T>, bases: map<nat, nat>)

  /** The header is usable: the next slot to write exists. */
  predicate Usable<T>(r: Ring<T>) {
    r.generation > 0 && r.currOffset < r.queueLen <= |r.slots|
  }

  // ---- Writers ----------------------------------------------------------------

  function Append<T>(r: Ring<T>, u: T): Ring<T>
    requires Usable(r)
  {
    var filled := r.slots[r.currOffset := u];
    if r.currOffset + 1 >= r.queueLen then
      Ring(r.generation + 1, 0, r.queueLen, r.queueLen, filled)
    else
      r.(currOffset := r.currOffset + 1, slots := filled)
  }

  /** "/reload all": every reader's generation becomes unreachable. */
  function Bump<T>(r: Ring<T>): Ring<T> {
    r.(generation := r.generation + 2)
  }

  predicate LooksCorrupt<T>(r: Ring<T>, totalBlocks: int) {
    || r.generation == 0
    || r.queueLen < MIN_QUEUE
    || r.currOffset >= r.queueLen
    || (r.queueLen > STD_QUEUE && r.queueLen > totalBlocks)
  }

  function Reinit<T>(r: Ring<T>): Ring<T> {
    Ring(r.generation + 2, 0, MIN_QUEUE, MIN_QUEUE, r.slots)
  }

  /** The length wanted for a map whose last download took `downloadSize` bytes. */
  function WantedLen(downloadSize: nat, updateSize: nat): (n: nat)
    requires updateSize > 0
    ensures n >= MIN_QUEUE && n >= downloadSize / updateSize
    ensures n > MIN_QUEUE ==> n <= downloadSize / updateSize + 2040
    ensures if downloadSize / updateSize <= 250 then n == 250
            else (n + 8) % 1024 == 0 && n > downloadSize / updateSize
                 && (n == 2040 || 2040 < n <= downloadSize / updateSize + 1024)
  {
    var needed := downloadSize / updateSize;
    if needed > MIN_QUEUE then
      var rounded := (needed + 8 + 1024) / 1024 * 1024;
      (if rounded < 2048 then STD_QUEUE else rounded) - 8
    else
      MIN_QUEUE
  }

  /** Opening the file: repair the header if it makes no sense, then only ever
      lengthen the ring.  `tail` is whatever the longer file holds beyond the
      old slots. */
  function Open<T>(r: Ring<T>, totalBlocks: int, wanted: nat, tail: seq<T>): Ring<T> {
    var checked := if LooksCorrupt(r, totalBlocks) then Reinit(r) else r;
    var longer := if wanted > checked.queueLen then checked.(queueLen := wanted) else checked;
    var marked := if longer.lastQueueLen == 0 then longer.(lastQueueLen := longer.queueLen) else longer;
    marked.(slots := r.slots + tail)
  }

  // ---- Readers ----------------------------------------------------------------

  function Mark<T>(r: Ring<T>): Reader {
    Reader(r.currOffset, r.generation)
  }

  predicate StillThere<T>(r: Ring<T>, rd: Reader) {
    || rd.lastGeneration == r.generation
    || (&& rd.lastGeneration == r.generation - 1
        && r.queueLen == r.lastQueueLen
        && r.currOffset < rd.lastId)
  }

  /** The slot that `Read` looks at exists. */
  predicate Readable<T>(r: Ring<T>, rd: Reader) {
    0 <= rd.lastId && (StillThere(r, rd) && rd.lastId != r.currOffset ==> rd.lastId < |r.slots|)
  }

  function Read<T>(r: Ring<T>, rd: Reader): ReadResult<T>
    requires Readable(r, rd)
  {
    if !StillThere(r, rd) then Overflow
    else if rd.lastId == r.currOffset then Drained
    else Got(r.slots[rd.lastId],
             if rd.lastId + 1 == r.queueLen then Reader(0, rd.lastGeneration + 1)
             else Reader(rd.lastId + 1, rd.lastGeneration))
  }

  // ---- What the slots mean ------------------------------------------------------

  /** Every live slot holds the update the history says it holds. */
  ghost predicate Inv<T>(r: Ring<T>, t: Trace<T>) {
    && Usable(r)
    && r.lastQueueLen > 0
    && r.generation in t.bases
    && (forall g <- t.bases :: g <= r.generation && t.bases[g] <= t.bases[r.generation])
    && |t.hist| == t.bases[r.generation] + r.currOffset
    && (forall i :: 0 <= i < r.currOffset ==> r.slots[i] == t.hist[t.bases[r.generation] + i])
    && (r.generation - 1 in t.bases ==> PreviousRoundKept(r, t))
  }

  ghost predicate PreviousRoundKept<T>(r: Ring<T>, t: Trace<T>)
    requires Usable(r)
    requires r.generation in t.bases && r.generation - 1 in t.bases
    requires |t.hist| >= t.bases[r.generation]
  {
    var base := t.bases[r.generation - 1];
    && r.lastQueueLen <= r.queueLen
    && t.bases[r.generation] == base + r.lastQueueLen
    && (forall g <- t.bases :: g < r.generation ==> t.bases[g] <= base)
    && (forall i :: r.currOffset <= i < r.lastQueueLen ==> r.slots[i] == t.hist[base + i])
  }

  /** The reader's position, counted from the first update ever appended. */
  ghost function Position<T>(t: Trace<T>, rd: Reader): int
    requires rd.lastGeneration in t.bases
  {
    t.bases[rd.lastGeneration] + rd.lastId
  }

  /** The reader stands at a position it was given by this ring. */
  ghost predicate Tracks<T>(r: Ring<T>, t: Trace<T>, rd: Reader) {
    && 0 <= rd.lastId
    && rd.lastGeneration in t.bases
    && Position(t, rd) <= |t.hist|
    && (rd.lastGeneration + 1 in t.bases ==> Position(t, rd) < t.bases[rd.lastGeneration + 1])
  }

  /** A ring with its history, at one moment. */
  datatype Moment<T> = Moment(ring: Ring<T>, trace: Trace<T>)

  /** Whoever had a place in the ring still stands where it stood. */
  ghost predicate NobodyMoved<T>(before: Moment<T>, after: Moment<T>) {
    forall rd :: Tracks(before.ring, before.trace, rd) ==>
      Tracks(after.ring, after.trace, rd) && Position(after.trace, rd) == Position(before.trace, rd)
  }

  lemma NobodyMovedTwice<T>(a: Moment<T>, b: Moment<T>, c: Moment<T>)
    requires NobodyMoved(a, b) && NobodyMoved(b, c)
    ensures NobodyMoved(a, c)
  {
    hide Tracks, Position;
  }

  /** No re-initialisation and no "/reload all" since the reader's generation. */
  ghost predicate Unbroken<T>(r: Ring<T>, t: Trace<T>, rd: Reader) {
    forall g: nat :: rd.lastGeneration <= g <= r.generation ==> g in t.bases
  }

  ghost function AppendTrace<T>(r: Ring<T>, t: Trace<T>, u: T): Trace<T>
    requires Inv(r, t)
  {
    Trace(t.hist + [u],
          if r.currOffset + 1 >= r.queueLen then t.bases[r.generation + 1 := |t.hist| + 1] else t.bases)
  }

  /** A generation jump: the new generation's slot 0 stands where the old one's did. */
  ghost function BumpTrace<T>(r: Ring<T>, t: Trace<T>): Trace<T>
    requires Inv(r, t)
  {
    Trace(t.hist, t.bases[r.generation + 2 := t.bases[r.generation]])
  }

  ghost function OpenTrace<T>(r: Ring<T>, t: Trace<T>, totalBlocks: int): Trace<T> {
    if LooksCorrupt(r, totalBlocks) then Trace(t.hist, t.bases[r.generation + 2 := |t.hist|]) else t
  }

  /** The history of a file found on disk: only its current round is known. */
  ghost function FoundTrace<T>(r: Ring<T>): Trace<T>
    requires Usable(r)
  {
    Trace(r.slots[..r.currOffset], map[r.generation := 0])
  }

  // ---- Steps of the writers ---------------------------------------------------------

  /** What any process may do to the ring while it holds the lock. */
  datatype Write<T> =
    | WAppend(u: T)
    | WBump
    | WOpen(totalBlocks: int, wanted: nat, tail: seq<T>)

  predicate Possible<T>(r: Ring<T>, w: Write<T>) {
    w.WOpen? ==>
      var len := if LooksCorrupt(r, w.totalBlocks) then MIN_QUEUE else r.queueLen;
      w.wanted >= MIN_QUEUE && len <= |r.slots| + |w.tail| && w.wanted <= |r.slots| + |w.tail|
  }

  function Apply<T>(r: Ring<T>, w: Write<T>): Ring<T>
    requires Usable(r)
  {
    match w
    case WAppend(u) => Append(r, u)
    case WBump => Bump(r)
    case WOpen(totalBlocks, wanted, tail) => Open(r, totalBlocks, wanted, tail)
  }

  ghost function ApplyTrace<T>(r: Ring<T>, t: Trace<T>, w: Write<T>): Trace<T>
    requires Inv(r, t)
  {
    match w
    case WAppend(u) => AppendTrace(r, t, u)
    case WBump => BumpTrace(r, t)
    case WOpen(totalBlocks, _, _) => OpenTrace(r, t, totalBlocks)
  }

  lemma AppendKeepsInv<T>(r: Ring<T>, t: Trace<T>, u: T)
    requires Inv(r, t)
    ensures Inv(Append(r, u), AppendTrace(r, t, u))
  {
  }

  lemma OpenKeepsInv<T>(r: Ring<T>, t: Trace<T>, totalBlocks: int, wanted: nat, tail: seq<T>)
    requires Inv(r, t) && Possible(r, WOpen(totalBlocks, wanted, tail))
    ensures Inv(Open(r, totalBlocks, wanted, tail), OpenTrace(r, t, totalBlocks))
  {
  }

  lemma WriteMovesNoReader<T>(r: Ring<T>, t: Trace<T>, w: Write<T>, rd: Reader)
    requires Inv(r, t) && Possible(r, w) && Tracks(r, t, rd)
    ensures Tracks(Apply(r, w), ApplyTrace(r, t, w), rd)
    ensures Position(ApplyTrace(r, t, w), rd) == Position(t, rd)
  {
  }

  /** Every write, growth and re-initialisation included, keeps the meaning of the
      slots and moves no reader. */
  lemma WriteKeepsInv<T>(r: Ring<T>, t: Trace<T>, w: Write<T>)
    requires Inv(r, t) && Possible(r, w)
    ensures Inv(Apply(r, w), ApplyTrace(r, t, w))
    ensures ApplyTrace(r, t, w).hist == t.hist + (if w.WAppend? then [w.u] else [])
    ensures NobodyMoved(Moment(r, t), Moment(Apply(r, w), ApplyTrace(r, t, w)))
  {
    match w {
      case WAppend(u) => AppendKeepsInv(r, t, u);
      case WBump =>
      case WOpen(totalBlocks, wanted, tail) => OpenKeepsInv(r, t, totalBlocks, wanted, tail);
    }
    forall rd | Tracks(r, t, rd)
      ensures Tracks(Apply(r, w), ApplyTrace(r, t, w), rd)
      ensures Position(ApplyTrace(r, t, w), rd) == Position(t, rd)
    {
      WriteMovesNoReader(r, t, w, rd);
    }
  }

  /** Opening repairs any header at all. */
  lemma OpenMakesUsable<T>(r: Ring<T>, totalBlocks: int, wanted: nat, tail: seq<T>)
    requires Possible(r, WOpen(totalBlocks, wanted, tail))
    ensures Usable(Open(r, totalBlocks, wanted, tail))
    ensures Inv(Open(r, totalBlocks, wanted, tail), FoundTrace(Open(r, totalBlocks, wanted, tail)))
    ensures wanted <= Open(r, totalBlocks, wanted, tail).queueLen
  {
  }

  lemma MarkTracks<T>(r: Ring<T>, t: Trace<T>)
    requires Inv(r, t)
    ensures Tracks(r, t, Mark(r)) && Position(t, Mark(r)) == |t.hist|
  {
  }

  // ---- One read ------------------------------------------------------------------------

  /** How far behind the writers the reader is. */
  ghost function Lag<T>(t: Trace<T>, rd: Reader): int
    requires rd.lastGeneration in t.bases
  {
    |t.hist| - Position(t, rd)
  }

  /** Soundness and precision of one read: the update handed over is the next one of
      the history, "nothing more" means the history is exhausted, and the overflow
      answer is given exactly when the position was cut off by a re-initialisation or
      "/reload all", or the writers wrapped and the ring has grown since, or the
      reader is a whole ring behind. */
  lemma ReadIsExact<T>(r: Ring<T>, t: Trace<T>, rd: Reader)
    requires Inv(r, t) && Tracks(r, t, rd)
    ensures Readable(r, rd)
    ensures match Read(r, rd)
            case Got(u, next) =>
              && Position(t, rd) < |t.hist| && u == t.hist[Position(t, rd)]
              && Tracks(r, t, next) && Position(t, next) == Position(t, rd) + 1
            case Drained => Position(t, rd) == |t.hist|
            case Overflow => true
    ensures Read(r, rd).Overflow? <==>
              || !Unbroken(r, t, rd)
              || (rd.lastGeneration < r.generation
                  && (r.queueLen != r.lastQueueLen || Lag(t, rd) >= r.queueLen))
  {
  }

  /** On a ring that has kept its length, nothing but falling a whole ring behind can
      cost a reader its position. */
  lemma FixedLengthOverflow<T>(r: Ring<T>, t: Trace<T>, rd: Reader)
    requires Inv(r, t) && Tracks(r, t, rd) && Unbroken(r, t, rd)
    requires r.queueLen == r.lastQueueLen
    ensures Readable(r, rd) && (Read(r, rd).Overflow? <==> Lag(t, rd) >= r.queueLen)
  {
    ReadIsExact(r, t, rd);
    if rd.lastGeneration == r.generation {
      assert Lag(t, rd) == r.currOffset - rd.lastId;
    }
  }

  // ---- Whole runs ------------------------------------------------------------------------

  /** One locked step of a run: some process writes, or our reader reads once. */
  datatype Step<T> = Writer(w: Write<T>) | ReadOnce

  /** The ring, its history, the reader, all it was handed, and whether it was ever
      told that it overflowed. */
  datatype RunState<T> = RunState(
    ring: Ring<T>, trace: Trace<T>, reader: Reader, delivered: seq<T>, overflowed: bool)

  ghost predicate CanStep<T>(s: RunState<T>, step: Step<T>) {
    Inv(s.ring, s.trace) && (step.Writer? ==> Possible(s.ring, step.w))
      && (step.ReadOnce? && !s.overflowed ==> Readable(s.ring, s.reader))
  }

  ghost function TakeStep<T>(s: RunState<T>, step: Step<T>): RunState<T>
    requires CanStep(s, step)
  {
    match step
    case Writer(w) => s.(ring := Apply(s.ring, w), trace := ApplyTrace(s.ring, s.trace, w))
    case ReadOnce =>
      if s.overflowed then s else
      match Read(s.ring, s.reader)
      case Overflow => s.(reader := NoPosition, overflowed := true)
      case Drained => s
      case Got(u, next) => s.(reader := next, delivered := s.delivered + [u])
  }

  /** The states of a run that starts in `s` and takes `steps` in order. */
  ghost predicate IsRun<T>(states: seq<RunState<T>>, steps: seq<Step<T>>) {
    && |states| == |steps| + 1
    && (forall i :: 0 <= i < |steps| ==> CanStep(states[i], steps[i]) && states[i + 1] == TakeStep(states[i], steps[i]))
  }

  /** What holds of a reader that was placed when the history was `start` long. */
  ghost predicate Faithful<T>(s: RunState<T>, start: nat) {
    && Inv(s.ring, s.trace)
    && start + |s.delivered| <= |s.trace.hist|
    && s.delivered == s.trace.hist[start..start + |s.delivered|]
    && (!s.overflowed ==>
          Tracks(s.ring, s.trace, s.reader) && Position(s.trace, s.reader) == start + |s.delivered|)
  }

  lemma StepKeepsFaithful<T>(s: RunState<T>, step: Step<T>, start: nat)
    requires Faithful(s, start) && CanStep(s, step)
    ensures Faithful(TakeStep(s, step), start)
  {
    match step {
      case Writer(w) => WriteKeepsInv(s.ring, s.trace, w);
      case ReadOnce => if !s.overflowed { ReadIsExact(s.ring, s.trace, s.reader); }
    }
  }

  /** Ring soundness over every run: whatever appends, wraps, growths, repairs and
      generation jumps happen between the reads, the reader has been handed exactly
      the contiguous stretch of the history that begins where it was placed; and no
      run gets stuck, so none of this holds for want of a next step. */
  lemma {:induction false} RunIsFaithful<T>(states: seq<RunState<T>>, steps: seq<Step<T>>)
    requires IsRun(states, steps)
    requires Inv(states[0].ring, states[0].trace)
    requires states[0].reader == Mark(states[0].ring) && states[0].delivered == [] && !states[0].overflowed
    ensures Faithful(states[|steps|], |states[0].trace.hist|)
    ensures forall step: Step<T> :: (step.Writer? ==> Possible(states[|steps|].ring, step.w))
              ==> CanStep(states[|steps|], step)
    decreases |steps|
  {
    var start := |states[0].trace.hist|;
    if |steps| == 0 {
      MarkTracks(states[0].ring, states[0].trace);
    } else {
      var n := |steps| - 1;
      RunIsFaithful(states[..n + 1], steps[..n]);
      StepKeepsFaithful(states[n], steps[n], start);
    }
    var last := states[|steps|];
    if !last.overflowed { ReadIsExact(last.ring, last.trace, last.reader); }
  }
}
