/** Saving a map while every session keeps editing it.

    The saver notes its place in the block queue, copies the map in up to four
    separate passes without holding the lock, and then writes down the updates
    queued meanwhile.  Each step below is one thing that happens atomically: one
    locked edit (cell and queue together), one write to a cell that is not in the
    queue yet, one late entry in the queue, some other change to the queue, the copy
    of one cell in one pass, or one read of the queue.

    A session that edits a single cell writes the cell first and queues the update
    afterwards.  While sand falls, a cell may be emptied and filled again with no
    update ever queued.  So the map and what the queue says of it can differ. */
module SaveProtocol {
  import opened Ring
  import opened World
  import opened BlockPlanes

  datatype Config = Config(dims: Dims, usePhysics: bool, fallback: seq<Byte>)

  datatype Phase = Pass1 | Pass2 | Pass3 | PassPhysics | Draining | Finished | Failed

  /** The blocks that each pass found in the cells it has copied. */
  datatype Seen = Seen(low: seq<Block>, high: seq<Block>, high3: seq<Block>, physics: seq<Block>)

  /** `seen` and the rest only serve to say what comes of a save: `blind` has the cells that
      some pass copied while they were silently changed, `final` is the shared map as it was
      when the queue was found drained, and `told` is what the queue had said of it. */
  datatype Saver = Saver(
    phase: Phase, reader: Reader, flags: Flags, planes: Planes, redo: seq<Update>,
    seen: Seen, blind: set<int>, final: seq<Block>, told: seq<Block>)

  /** `told` is the map according to the queue; a cell is silently changed while it holds
      something else. */
  datatype State = State(level: seq<Block>, told: seq<Block>, ring: Ring<Update>, trace: Trace<Update>, saver: Saver)

  datatype Step =
    | Edit(u: Update)            // cell and queue, under one lock
    | Write(i: int, b: Block)    // a cell, and nothing in the queue
    | Announce(u: Update)        // an entry in the queue, and nothing in the cell
    | Other(w: Write<Update>)    // growth, repair, "/reload all"
    | Save                       // the saver goes on

  ghost predicate WellFormed(c: Config, s: State) {
    |c.fallback| == 256 && |s.level| == |s.told| == Volume(c.dims) && Inv(s.ring, s.trace)
  }

  function Begin(r: Ring<Update>): Saver {
    Saver(Pass1, Mark(r), NoFlags, Planes([], Absent, Absent, Absent), [], Seen([], [], [], []), {}, [], [])
  }

  // ---- The saver's own steps -----------------------------------------------------------

  /** The bytes a pass has produced so far; none if the pass is not made. */
  function PassBytes(p: Planes, ph: Phase): Plane {
    match ph
    case Pass1 => Present(p.blocks)
    case Pass2 => p.high
    case Pass3 => p.high3
    case PassPhysics => p.physics
    case _ => Absent
  }

  function PassByte(c: Config, ph: Phase, b: Block): Byte
    requires |c.fallback| == 256
  {
    match ph
    case Pass1 => LowByte(b, c.usePhysics, c.fallback)
    case Pass2 => HighByte(b, c.usePhysics)
    case Pass3 => High3Byte(b, c.usePhysics)
    case _ => PhysicsByte(b)
  }

  function WithByte(p: Planes, ph: Phase, b: Byte): Planes {
    match ph
    case Pass1 => p.(blocks := p.blocks + [b])
    case Pass2 => if p.high.Present? then p.(high := Present(p.high.bytes + [b])) else p
    case Pass3 => if p.high3.Present? then p.(high3 := Present(p.high3.bytes + [b])) else p
    case PassPhysics => if p.physics.Present? then p.(physics := Present(p.physics.bytes + [b])) else p
    case _ => p
  }

  function SeenBy(x: Seen, ph: Phase): seq<Block> {
    match ph
    case Pass1 => x.low
    case Pass2 => x.high
    case Pass3 => x.high3
    case PassPhysics => x.physics
    case _ => []
  }

  function WithSeen(x: Seen, ph: Phase, b: Block): Seen {
    match ph
    case Pass1 => x.(low := x.low + [b])
    case Pass2 => x.(high := x.high + [b])
    case Pass3 => x.(high3 := x.high3 + [b])
    case PassPhysics => x.(physics := x.physics + [b])
    case _ => x
  }

  function NextPass(ph: Phase): Phase {
    match ph
    case Pass1 => Pass2
    case Pass2 => Pass3
    case Pass3 => PassPhysics
    case _ => Draining
  }

  /** The first pass has decided which other planes will be written. */
  function PlanPlanes(v: Saver): Planes {
    Planes(v.planes.blocks,
           if v.flags.ba2 then Present([]) else Absent,
           if v.flags.ba3 then Present([]) else Absent,
           if v.flags.ph then Present([]) else Absent)
  }

  predicate InPass(ph: Phase) {
    ph.Pass1? || ph.Pass2? || ph.Pass3? || ph.PassPhysics?
  }

  /** Copies the next cell of the current pass, or goes on to the next pass. */
  function ScanStep(c: Config, s: State): Saver
    requires |c.fallback| == 256 && |s.level| == |s.told| == Volume(c.dims) && InPass(s.saver.phase)
  {
    var v := s.saver;
    var sofar := PassBytes(v.planes, v.phase);
    if sofar.Present? && |sofar.bytes| < |s.level| then
      var i := |sofar.bytes|;
      var b := s.level[i];
      v.(planes := WithByte(v.planes, v.phase, PassByte(c, v.phase, b)),
         flags := if v.phase.Pass1? then Noting(v.flags, b, c.usePhysics) else v.flags,
         seen := WithSeen(v.seen, v.phase, b),
         blind := if b != s.told[i] then v.blind + {i} else v.blind)
    else
      v.(phase := NextPass(v.phase), planes := if v.phase.Pass1? then PlanPlanes(v) else v.planes)
  }

  function DrainStep(s: State): Saver
    requires Usable(s.ring) && Readable(s.ring, s.saver.reader)
  {
    match Read(s.ring, s.saver.reader)
    case Got(u, next) => s.saver.(reader := next, redo := s.saver.redo + [u])
    case Drained => s.saver.(phase := Finished, final := s.level, told := s.told)
    case Overflow => s.saver.(phase := Failed)
  }

  // ---- Everybody's steps -----------------------------------------------------------------

  ghost predicate CanStep(c: Config, s: State, step: Step) {
    && WellFormed(c, s)
    && match step
       case Edit(u) => Fits(c.dims, u)
       case Write(i, b) => 0 <= i < Volume(c.dims)
       case Announce(u) => Fits(c.dims, u)
       case Other(w) => !w.WAppend? && Possible(s.ring, w)
       case Save => s.saver.phase.Draining? ==> Readable(s.ring, s.saver.reader)
  }

  ghost function TakeStep(c: Config, s: State, step: Step): State
    requires CanStep(c, s, step)
  {
    match step
    case Edit(u) => Announced(c, s, u).(level := s.level[Cell(c.dims, u) := u.b])
    case Write(i, b) => s.(level := s.level[i := b])
    case Announce(u) => Announced(c, s, u)
    case Other(w) => s.(ring := Apply(s.ring, w), trace := ApplyTrace(s.ring, s.trace, w))
    case Save =>
      if InPass(s.saver.phase) then s.(saver := ScanStep(c, s))
      else if s.saver.phase.Draining? then s.(saver := DrainStep(s))
      else s
  }

  ghost function Announced(c: Config, s: State, u: Update): State
    requires WellFormed(c, s) && Fits(c.dims, u)
  {
    s.(told := s.told[Cell(c.dims, u) := u.b], ring := Append(s.ring, u), trace := AppendTrace(s.ring, s.trace, u))
  }

  ghost predicate IsRun(c: Config, states: seq<State>, steps: seq<Step>) {
    && |states| == |steps| + 1
    && (forall i :: 0 <= i < |steps| ==>
          CanStep(c, states[i], steps[i]) && states[i + 1] == TakeStep(c, states[i], steps[i]))
  }

  // ---- What every step keeps ----------------------------------------------------------------

  /** The entries made since the saver took its place. */
  ghost function Since(s: State, start: nat): seq<Update>
    requires start <= |s.trace.hist|
  {
    s.trace.hist[start..]
  }

  /** The bytes of a pass are those of the blocks it found. */
  ghost predicate PassRight(c: Config, v: Saver, ph: Phase)
    requires |c.fallback| == 256
  {
    var (p, found) := (PassBytes(v.planes, ph), SeenBy(v.seen, ph));
    if p.Present? then |found| == |p.bytes| && forall j :: 0 <= j < |found| ==> p.bytes[j] == PassByte(c, ph, found[j])
    else found == []
  }

  ghost predicate PlanesRight(c: Config, v: Saver)
    requires |c.fallback| == 256
  {
    && PassRight(c, v, Pass1) && PassRight(c, v, Pass2) && PassRight(c, v, Pass3) && PassRight(c, v, PassPhysics)
    && (v.flags.ph ==> c.usePhysics)
    && (forall j :: 0 <= j < |v.seen.low| ==> Covers(v.flags, v.seen.low[j], c.usePhysics))
  }

  /** A pass found in cell `j` something other than the queue says of it. */
  predicate FoundOther(v: Saver, ph: Phase, j: int, m0: seq<Block>) {
    0 <= j < |SeenBy(v.seen, ph)| && j < |m0| && SeenBy(v.seen, ph)[j] != m0[j]
  }

  /** Of the cells that the log does not name, those in `blind` are the ones that some pass
      has found other than the queue says. */
  ghost predicate BlindRight(c: Config, v: Saver, m0: seq<Block>, log: seq<Update>)
    requires |m0| == Volume(c.dims) && AllFit(c.dims, log)
  {
    forall j :: 0 <= j < |m0| && !Touches(c.dims, log, j) ==>
      (j in v.blind <==> FoundOther(v, Pass1, j, m0) || FoundOther(v, Pass2, j, m0)
                         || FoundOther(v, Pass3, j, m0) || FoundOther(v, PassPhysics, j, m0))
  }

  ghost predicate PassDone(v: Saver, ph: Phase, n: nat) {
    var p := PassBytes(v.planes, ph);
    p.Present? ==> |p.bytes| == n
  }

  predicate NotOver(p: Plane, n: nat) { p.Present? ==> |p.bytes| <= n }

  /** Which passes are complete in which phase. */
  ghost predicate OnSchedule(v: Saver, n: nat) {
    && |v.planes.blocks| <= n && NotOver(v.planes.high, n) && NotOver(v.planes.high3, n) && NotOver(v.planes.physics, n)
    && (v.phase.Pass1? ==> !v.planes.high.Present? && !v.planes.high3.Present? && !v.planes.physics.Present?)
    && (!v.phase.Pass1? ==> |v.planes.blocks| == n && FlagsMatch(v.planes, v.flags))
    && (v.phase.Pass3? || v.phase.PassPhysics? || v.phase.Draining? || v.phase.Finished? ==> PassDone(v, Pass2, n))
    && (v.phase.PassPhysics? || v.phase.Draining? || v.phase.Finished? ==> PassDone(v, Pass3, n))
    && (v.phase.Draining? || v.phase.Finished? ==> PassDone(v, PassPhysics, n))
  }

  /** `m0` is the map according to the queue, and `start` the length of the history, when
      the saver began. */
  ghost predicate SaveInv(c: Config, s: State, m0: seq<Block>, start: nat) {
    && WellFormed(c, s) && |m0| == Volume(c.dims)
    && start <= |s.trace.hist| && AllFit(c.dims, Since(s, start))
    && Replay(c.dims, m0, Since(s, start)) == s.told
    && OnSchedule(s.saver, |m0|) && PlanesRight(c, s.saver)
    && (match s.saver.phase
        case Failed => true
        case Finished =>
          && AllFit(c.dims, s.saver.redo) && |s.saver.final| == |m0|
          && BlindRight(c, s.saver, m0, s.saver.redo)
          && Replay(c.dims, m0, s.saver.redo) == s.saver.told
        case _ =>
          && BlindRight(c, s.saver, m0, Since(s, start))
          && Tracks(s.ring, s.trace, s.saver.reader)
          && Position(s.trace, s.saver.reader) == start + |s.saver.redo|
          && s.saver.redo == s.trace.hist[start..start + |s.saver.redo|]
          && (!s.saver.phase.Draining? ==> s.saver.redo == []))
  }

  lemma BeginKeeps(c: Config, s: State)
    requires WellFormed(c, s) && s.saver == Begin(s.ring)
    ensures SaveInv(c, s, s.told, |s.trace.hist|)
  {
    MarkTracks(s.ring, s.trace);
  }

  lemma AnnounceKeeps(c: Config, s: State, u: Update, m0: seq<Block>, start: nat)
    requires SaveInv(c, s, m0, start) && Fits(c.dims, u)
    ensures SaveInv(c, Announced(c, s, u), m0, start)
  {
    hide PlanesRight, OnSchedule, BlindRight, Inv, Replay;
    var s' := Announced(c, s, u);
    WriteKeepsInv(s.ring, s.trace, WAppend(u));
    assert Since(s', start) == Since(s, start) + [u];
    ReplayOne(c.dims, m0, Since(s, start), u);
    if !s.saver.phase.Finished? && !s.saver.phase.Failed? {
      NamedMore(c, s.saver, m0, Since(s, start), u);
    }
  }

  lemma NamedMore(c: Config, v: Saver, m0: seq<Block>, log: seq<Update>, u: Update)
    requires |m0| == Volume(c.dims) && AllFit(c.dims, log) && Fits(c.dims, u) && BlindRight(c, v, m0, log)
    ensures AllFit(c.dims, log + [u]) && BlindRight(c, v, m0, log + [u])
  {
    hide FoundOther, Touches;
    TouchesMore(c.dims, log, u);
  }

  lemma WriteKeeps(c: Config, s: State, level: seq<Block>, m0: seq<Block>, start: nat)
    requires SaveInv(c, s, m0, start) && |level| == |s.level|
    ensures SaveInv(c, s.(level := level), m0, start)
  {
    hide PlanesRight, OnSchedule, FoundOther, Inv, Replay, BlindRight, Tracks;
    var s' := s.(level := level);
    assert Since(s', start) == Since(s, start);
  }

  lemma OtherKeeps(c: Config, s: State, w: Write<Update>, m0: seq<Block>, start: nat)
    requires SaveInv(c, s, m0, start) && CanStep(c, s, Other(w))
    ensures SaveInv(c, TakeStep(c, s, Other(w)), m0, start)
  {
    hide PlanesRight, OnSchedule, FoundOther, Replay, BlindRight;
    WriteKeepsInv(s.ring, s.trace, w);
  }

  lemma CopyKeepsPlanes(c: Config, s: State)
    requires |c.fallback| == 256 && |s.level| == |s.told| == Volume(c.dims) && InPass(s.saver.phase)
    requires var sofar := PassBytes(s.saver.planes, s.saver.phase); sofar.Present? && |sofar.bytes| < |s.level|
    requires PlanesRight(c, s.saver)
    ensures PlanesRight(c, ScanStep(c, s))
  {
    hide LowByte, HighByte, High3Byte, PhysicsByte;
    var v, v' := s.saver, ScanStep(c, s);
    CopyKeepsPass(c, s, Pass1);
    CopyKeepsPass(c, s, Pass2);
    CopyKeepsPass(c, s, Pass3);
    CopyKeepsPass(c, s, PassPhysics);
    assert forall b: Block :: Covers(v.flags, b, c.usePhysics) ==> Covers(v'.flags, b, c.usePhysics);
  }

  lemma CopyKeepsPass(c: Config, s: State, ph: Phase)
    requires |c.fallback| == 256 && |s.level| == |s.told| == Volume(c.dims) && InPass(s.saver.phase)
    requires var sofar := PassBytes(s.saver.planes, s.saver.phase); sofar.Present? && |sofar.bytes| < |s.level|
    requires PassRight(c, s.saver, ph)
    ensures PassRight(c, ScanStep(c, s), ph)
  {
    hide LowByte, HighByte, High3Byte, PhysicsByte, Noting;
    assert s.saver.phase != ph ==> PassBytes(ScanStep(c, s).planes, ph) == PassBytes(s.saver.planes, ph)
                                   && SeenBy(ScanStep(c, s).seen, ph) == SeenBy(s.saver.seen, ph);
  }

  lemma CopyKeepsSchedule(c: Config, s: State, n: nat)
    requires |c.fallback| == 256 && |s.level| == |s.told| == Volume(c.dims) && InPass(s.saver.phase)
    requires var sofar := PassBytes(s.saver.planes, s.saver.phase); sofar.Present? && |sofar.bytes| < |s.level|
    requires OnSchedule(s.saver, n) && n == |s.level|
    ensures OnSchedule(ScanStep(c, s), n)
  {
    hide LowByte, HighByte, High3Byte, PhysicsByte, Noting;
  }

  lemma CopyKeepsBlind(c: Config, s: State, m0: seq<Block>, log: seq<Update>)
    requires |c.fallback| == 256 && |s.level| == |s.told| == Volume(c.dims) && InPass(s.saver.phase)
    requires var sofar := PassBytes(s.saver.planes, s.saver.phase); sofar.Present? && |sofar.bytes| < |s.level|
    requires AllFit(c.dims, log) && |m0| == Volume(c.dims) && PlanesRight(c, s.saver)
    requires BlindRight(c, s.saver, m0, log) && Replay(c.dims, m0, log) == s.told
    ensures BlindRight(c, ScanStep(c, s), m0, log)
  {
    hide Inv, Replay, PassByte, Noting, Touches;
    var v, v' := s.saver, ScanStep(c, s);
    var i, b := |PassBytes(v.planes, v.phase).bytes|, s.level[|PassBytes(v.planes, v.phase).bytes|];
    assert PassRight(c, v, v.phase);
    if !Touches(c.dims, log, i) { ReplayLeaves(c.dims, m0, log, i); }
    FindsMore(v, v', Pass1, i, b, m0);
    FindsMore(v, v', Pass2, i, b, m0);
    FindsMore(v, v', Pass3, i, b, m0);
    FindsMore(v, v', PassPhysics, i, b, m0);
    hide FoundOther;
  }

  lemma FindsMore(v: Saver, v': Saver, ph: Phase, i: nat, b: Block, m0: seq<Block>)
    requires v'.seen == WithSeen(v.seen, v.phase, b) && InPass(ph) && i < |m0|
    requires |SeenBy(v.seen, v.phase)| == i
    ensures forall j ::
              FoundOther(v', ph, j, m0) <==> FoundOther(v, ph, j, m0) || (ph == v.phase && j == i && b != m0[i])
  {
    assert SeenBy(v'.seen, ph) == if ph == v.phase then SeenBy(v.seen, ph) + [b] else SeenBy(v.seen, ph);
  }

  lemma TurnKeeps(c: Config, s: State)
    requires |c.fallback| == 256 && |s.level| == |s.told| == Volume(c.dims) && InPass(s.saver.phase)
    requires var sofar := PassBytes(s.saver.planes, s.saver.phase); !(sofar.Present? && |sofar.bytes| < |s.level|)
    requires PlanesRight(c, s.saver) && OnSchedule(s.saver, |s.level|)
    ensures PlanesRight(c, ScanStep(c, s)) && OnSchedule(ScanStep(c, s), |s.level|)
  {
    hide LowByte, HighByte, High3Byte, PhysicsByte, Noting;
    var v := ScanStep(c, s);
    assert PassRight(c, s.saver, Pass1) && PassRight(c, s.saver, Pass2) && PassRight(c, s.saver, Pass3)
        && PassRight(c, s.saver, PassPhysics);
    assert PassRight(c, v, Pass1);
    assert PassRight(c, v, Pass2);
    assert PassRight(c, v, Pass3);
    assert PassRight(c, v, PassPhysics);
  }

  lemma ScanKeeps(c: Config, s: State, m0: seq<Block>, start: nat)
    requires SaveInv(c, s, m0, start) && InPass(s.saver.phase)
    ensures SaveInv(c, s.(saver := ScanStep(c, s)), m0, start)
  {
    hide Inv, Replay, PlanesRight, OnSchedule, BlindRight;
    var sofar := PassBytes(s.saver.planes, s.saver.phase);
    if sofar.Present? && |sofar.bytes| < |s.level| {
      CopyKeepsPlanes(c, s);
      CopyKeepsSchedule(c, s, |m0|);
      CopyKeepsBlind(c, s, m0, Since(s, start));
    } else {
      TurnKeeps(c, s);
      SameSeen(c, s.saver, ScanStep(c, s), m0, Since(s, start));
    }
  }

  lemma SameSeen(c: Config, v: Saver, v': Saver, m0: seq<Block>, log: seq<Update>)
    requires |m0| == Volume(c.dims) && AllFit(c.dims, log) && v'.seen == v.seen && v'.blind == v.blind
    ensures BlindRight(c, v, m0, log) ==> BlindRight(c, v', m0, log)
  {
    hide Touches;
    if BlindRight(c, v, m0, log) {
      forall j | 0 <= j < |m0| && !Touches(c.dims, log, j)
        ensures j in v'.blind <==> FoundOther(v', Pass1, j, m0) || FoundOther(v', Pass2, j, m0)
                                   || FoundOther(v', Pass3, j, m0) || FoundOther(v', PassPhysics, j, m0)
      {
        assert j in v.blind <==> FoundOther(v, Pass1, j, m0) || FoundOther(v, Pass2, j, m0)
                                 || FoundOther(v, Pass3, j, m0) || FoundOther(v, PassPhysics, j, m0);
      }
    }
  }

  lemma DrainKeeps(c: Config, s: State, m0: seq<Block>, start: nat)
    requires SaveInv(c, s, m0, start) && s.saver.phase.Draining?
    ensures Readable(s.ring, s.saver.reader)
    ensures SaveInv(c, s.(saver := DrainStep(s)), m0, start)
  {
    hide BlindRight, PlanesRight, Replay;
    ReadIsExact(s.ring, s.trace, s.saver.reader);
    var v := DrainStep(s);
    SameSeen(c, s.saver, v, m0, Since(s, start));
    SameBytes(c, s.saver, v);
    if v.phase.Finished? {
      assert v.redo == Since(s, start);
    }
  }

  lemma SameBytes(c: Config, v: Saver, v': Saver)
    requires |c.fallback| == 256 && v'.seen == v.seen && v'.planes == v.planes && v'.flags == v.flags
    ensures PlanesRight(c, v) ==> PlanesRight(c, v')
  {
  }

  lemma StepKeeps(c: Config, s: State, step: Step, m0: seq<Block>, start: nat)
    requires SaveInv(c, s, m0, start) && CanStep(c, s, step)
    ensures SaveInv(c, TakeStep(c, s, step), m0, start)
  {
    hide SaveInv, Inv;
    match step {
      case Edit(u) =>
        AnnounceKeeps(c, s, u, m0, start);
        WriteKeeps(c, Announced(c, s, u), s.level[Cell(c.dims, u) := u.b], m0, start);
      case Write(i, b) => WriteKeeps(c, s, s.level[i := b], m0, start);
      case Announce(u) => AnnounceKeeps(c, s, u, m0, start);
      case Other(w) => OtherKeeps(c, s, w, m0, start);
      case Save =>
        if InPass(s.saver.phase) { ScanKeeps(c, s, m0, start); }
        else if s.saver.phase.Draining? { DrainKeeps(c, s, m0, start); }
    }
  }

  lemma {:induction false} RunKeeps(c: Config, states: seq<State>, steps: seq<Step>)
    requires IsRun(c, states, steps)
    requires WellFormed(c, states[0]) && states[0].saver == Begin(states[0].ring)
    ensures SaveInv(c, states[|steps|], states[0].told, |states[0].trace.hist|)
    decreases |steps|
  {
    hide SaveInv;
    if |steps| == 0 {
      BeginKeeps(c, states[0]);
    } else {
      var n := |steps| - 1;
      RunKeeps(c, states[..n + 1], steps[..n]);
      StepKeeps(c, states[n], steps[n], states[0].told, |states[0].trace.hist|);
    }
  }

  // ---- The main results ------------------------------------------------------------------------

  function Look(found: seq<Block>, i: nat): Block { if i < |found| then found[i] else AIR }

  /** The planes are right for cell `i`, whichever moments its bytes are from. */
  ghost predicate ShowsBlock(c: Config, v: Saver, i: nat, t: Block)
    requires |c.fallback| == 256
  {
    PiecedTogether(v.flags, c.usePhysics, c.fallback, Look(v.seen.low, i), Look(v.seen.high, i),
                   Look(v.seen.high3, i), Look(v.seen.physics, i), t)
  }

  /** What has to be so for a save to be exact: what the records say last of a cell is what
      it holds, and a cell that they do not name was copied well. */
  ghost predicate Faithful(c: Config, v: Saver)
    requires |c.fallback| == 256 && AllFit(c.dims, v.redo) && |v.told| == |v.final| == Volume(c.dims)
  {
    forall i :: 0 <= i < |v.final| ==>
      if Touches(c.dims, v.redo, i) then v.told[i] == v.final[i] else ShowsBlock(c, v, i, v.final[i])
  }

  /** Every cell that was copied while it was silently changed is named by a record. */
  ghost predicate NoneSlips(c: Config, v: Saver)
    requires AllFit(c.dims, v.redo)
  {
    forall i :: i in v.blind && 0 <= i < Volume(c.dims) ==> Touches(c.dims, v.redo, i)
  }

  ghost predicate IsSave(c: Config, states: seq<State>, steps: seq<Step>) {
    && IsRun(c, states, steps)
    && WellFormed(c, states[0]) && states[0].saver == Begin(states[0].ring)
    && states[|steps|].saver.phase.Finished?
  }

  lemma SavedShape(c: Config, states: seq<State>, steps: seq<Step>)
    requires IsSave(c, states, steps)
    ensures var v := states[|steps|].saver;
            && |c.fallback| == 256 && AllFit(c.dims, v.redo) && |v.told| == |v.final| == Volume(c.dims)
            && WellSized(v.planes, Volume(c.dims)) && PlanesRight(c, v) && FlagsMatch(v.planes, v.flags)
            && |states[0].told| == Volume(c.dims)
            && BlindRight(c, v, states[0].told, v.redo) && Replay(c.dims, states[0].told, v.redo) == v.told
  {
    hide BlindRight, PlanesRight, Replay, Inv;
    RunKeeps(c, states, steps);
    var v, n := states[|steps|].saver, Volume(c.dims);
    assert PassDone(v, Pass2, n) && PassDone(v, Pass3, n) && PassDone(v, PassPhysics, n);
  }

  lemma CellLoads(c: Config, v: Saver, n: nat, i: nat, t: Block)
    requires |c.fallback| == 256 && WellSized(v.planes, n) && PlanesRight(c, v) && FlagsMatch(v.planes, v.flags)
             && i < n
    ensures Load(v.planes)[i] == t <==> ShowsBlock(c, v, i, t)
  {
    hide PiecedTogether, LowByte, HighByte, High3Byte, PhysicsByte, LoadCell;
    assert PassRight(c, v, Pass1) && PassRight(c, v, Pass2) && PassRight(c, v, Pass3) && PassRight(c, v, PassPhysics);
    PiecesLoad(v.flags, c.usePhysics, c.fallback, Look(v.seen.low, i), Look(v.seen.high, i),
               Look(v.seen.high3, i), Look(v.seen.physics, i), t);
  }

  /** What a finished save amounts to, for every interleaving, although no two of its bytes
      need have been copied at the same moment: loading the planes and then applying the redo
      records gives the shared map as it was when the queue was drained, exactly if each cell
      holds what its last record says, or has no record and was copied well. */
  lemma ConsistentSave(c: Config, states: seq<State>, steps: seq<Step>)
    requires IsSave(c, states, steps)
    ensures var v := states[|steps|].saver;
            && |c.fallback| == 256 && |v.told| == |v.final| == Volume(c.dims)
            && WellSized(v.planes, Volume(c.dims)) && AllFit(c.dims, v.redo)
            && (Replay(c.dims, Load(v.planes), v.redo) == v.final <==> Faithful(c, v))
  {
    hide ShowsBlock, BlindRight, PlanesRight, Replay;
    SavedShape(c, states, steps);
    var v, n := states[|steps|].saver, Volume(c.dims);
    assert |Load(v.planes)| == n;
    var loaded := Replay(c.dims, Load(v.planes), v.redo);
    assert |loaded| == n;
    forall i | 0 <= i < n
      ensures loaded[i] == v.final[i] <==>
              if Touches(c.dims, v.redo, i) then v.told[i] == v.final[i] else ShowsBlock(c, v, i, v.final[i])
    {
      if Touches(c.dims, v.redo, i) {
        ReplayTouched(c.dims, Load(v.planes), states[0].told, v.redo, i);
      } else {
        ReplayLeaves(c.dims, Load(v.planes), v.redo, i);
        CellLoads(c, v, n, i, v.final[i]);
      }
    }
  }

  /** What the queue says comes out if no cell that was copied while it was silently changed
      goes unnamed; if the lowest plane is all there is, only then. */
  lemma QueueIsSaved(c: Config, states: seq<State>, steps: seq<Step>)
    requires IsSave(c, states, steps)
    ensures var v := states[|steps|].saver;
            && AllFit(c.dims, v.redo) && |c.fallback| == 256
            && WellSized(v.planes, Volume(c.dims))
            && (NoneSlips(c, v) ==> Replay(c.dims, Load(v.planes), v.redo) == v.told)
            && (v.flags == NoFlags && Replay(c.dims, Load(v.planes), v.redo) == v.told ==> NoneSlips(c, v))
  {
    hide ShowsBlock, Replay, Covers, PassRight;
    SavedShape(c, states, steps);
    var v, n, m0 := states[|steps|].saver, Volume(c.dims), states[0].told;
    assert |Load(v.planes)| == n;
    var loaded := Replay(c.dims, Load(v.planes), v.redo);
    assert |loaded| == n;
    forall i | 0 <= i < n
      ensures i !in v.blind || Touches(c.dims, v.redo, i) ==> loaded[i] == v.told[i]
      ensures v.flags == NoFlags && loaded[i] == v.told[i] ==> i !in v.blind || Touches(c.dims, v.redo, i)
    {
      if Touches(c.dims, v.redo, i) {
        ReplayTouched(c.dims, Load(v.planes), m0, v.redo, i);
      } else {
        ReplayLeaves(c.dims, Load(v.planes), v.redo, i);
        ReplayLeaves(c.dims, m0, v.redo, i);
        CellLoads(c, v, n, i, m0[i]);
        BlindShows(c, v, n, i, m0);
      }
    }
  }

  lemma BlindShows(c: Config, v: Saver, n: nat, i: nat, m0: seq<Block>)
    requires |c.fallback| == 256 && WellSized(v.planes, n) && PlanesRight(c, v) && FlagsMatch(v.planes, v.flags)
    requires i < n == |m0|
    ensures var other := FoundOther(v, Pass1, i, m0) || FoundOther(v, Pass2, i, m0)
                         || FoundOther(v, Pass3, i, m0) || FoundOther(v, PassPhysics, i, m0);
            && (!other ==> ShowsBlock(c, v, i, m0[i]))
            && (v.flags == NoFlags && ShowsBlock(c, v, i, m0[i]) ==> !other)
  {
    assert PassRight(c, v, Pass1) && PassRight(c, v, Pass2) && PassRight(c, v, Pass3) && PassRight(c, v, PassPhysics);
    assert Covers(v.flags, v.seen.low[i], c.usePhysics);
  }

  /** So a save is a moment of the map, if no silent change slips through it and none is
      outstanding at that moment. */
  lemma SaveIsAMoment(c: Config, states: seq<State>, steps: seq<Step>)
    requires IsSave(c, states, steps)
    ensures var v := states[|steps|].saver;
            && AllFit(c.dims, v.redo) && WellSized(v.planes, Volume(c.dims))
            && (NoneSlips(c, v) && v.told == v.final ==> Replay(c.dims, Load(v.planes), v.redo) == v.final)
  {
    hide IsSave, Replay, NoneSlips;
    QueueIsSaved(c, states, steps);
  }

  /** Nothing is silently changed to begin with, and every edit is one locked step. */
  ghost predicate EditsLocked(c: Config, states: seq<State>, steps: seq<Step>)
    requires IsRun(c, states, steps)
  {
    states[0].level == states[0].told && forall i :: 0 <= i < |steps| ==> !steps[i].Write? && !steps[i].Announce?
  }

  /** Then there are no silent changes at all. */
  lemma {:induction false} LockedEditsOnly(c: Config, states: seq<State>, steps: seq<Step>)
    requires IsRun(c, states, steps) && states[0].saver == Begin(states[0].ring) && EditsLocked(c, states, steps)
    ensures var s := states[|steps|];
            s.level == s.told && s.saver.blind == {} && (s.saver.phase.Finished? ==> s.saver.final == s.saver.told)
    decreases |steps|
  {
    hide Inv, WellFormed, Apply, ApplyTrace;
    if |steps| > 0 {
      var n := |steps| - 1;
      LockedEditsOnly(c, states[..n + 1], steps[..n]);
      assert states[n + 1] == TakeStep(c, states[n], steps[n]) && CanStep(c, states[n], steps[n]);
      LockedStep(c, states[n], steps[n]);
    }
  }

  lemma LockedStep(c: Config, s: State, step: Step)
    requires CanStep(c, s, step) && !step.Write? && !step.Announce?
    requires s.level == s.told && s.saver.blind == {} && (s.saver.phase.Finished? ==> s.saver.final == s.saver.told)
    ensures var s' := TakeStep(c, s, step);
            && s'.level == s'.told && s'.saver.blind == {}
            && (s'.saver.phase.Finished? ==> s'.saver.final == s'.saver.told)
  {
    hide Inv;
  }

  /** `final` and `told` are the shared map, and the map according to the queue, at the step
      that finds the queue drained; the redo records are all entries up to that moment. */
  lemma FinishIsAMoment(c: Config, states: seq<State>, steps: seq<Step>)
    requires IsSave(c, states, steps) && |steps| > 0 && !states[|steps| - 1].saver.phase.Finished?
    ensures var s, v := states[|steps|], states[|steps|].saver;
            && steps[|steps| - 1].Save?
            && v.final == s.level && v.told == s.told && s.level == states[|steps| - 1].level
            && |s.trace.hist| >= |states[0].trace.hist| && v.redo == s.trace.hist[|states[0].trace.hist|..]
  {
    hide BlindRight, PlanesRight, Replay, OnSchedule, PassDone;
    var n := |steps| - 1;
    RunKeeps(c, states[..n + 1], steps[..n]);
    var s := states[n];
    assert CanStep(c, s, steps[n]) && states[n + 1] == TakeStep(c, s, steps[n]);
    if s.saver.phase.Draining? { ReadIsExact(s.ring, s.trace, s.saver.reader); }
  }

  /** An entry that says what its cell does not hold leaves the cell silently changed. */
  function ChangeOf(c: Config, s: State, step: Step): Change
    requires |s.level| == Volume(c.dims) && (step.Edit? || step.Announce? ==> Fits(c.dims, step.u))
  {
    match step
    case Edit(u) => Settled(Cell(c.dims, u))
    case Write(i, b) => Silent(i)
    case Announce(u) =>
      if s.level[Cell(c.dims, u)] == u.b then Settled(Cell(c.dims, u)) else Silent(Cell(c.dims, u))
    case _ => Neither
  }

  ghost function Changes(c: Config, states: seq<State>, steps: seq<Step>): (r: seq<Change>)
    requires IsRun(c, states, steps)
    ensures |r| == |steps|
  {
    if steps == [] then []
    else
      var n := |steps| - 1;
      Changes(c, states[..n + 1], steps[..n]) + [ChangeOf(c, states[n], steps[n])]
  }

  /** Whatever is amiss with a cell goes back to a silent change that is still outstanding. */
  ghost predicate AllOutstanding(c: Config, s: State, changes: seq<Change>, start: nat)
    requires |s.level| == |s.told| == Volume(c.dims) && start <= |s.trace.hist| && AllFit(c.dims, Since(s, start))
  {
    forall i :: 0 <= i < |s.level| ==>
      && (s.level[i] != s.told[i] ==> Outstanding(changes, i))
      && (i in s.saver.blind && !Touches(c.dims, Since(s, start), i) ==> Outstanding(changes, i))
  }

  lemma OutstandingStays(c: Config, s: State, step: Step, changes: seq<Change>, m0: seq<Block>, start: nat)
    requires SaveInv(c, s, m0, start) && CanStep(c, s, step) && !s.saver.phase.Finished?
    requires AllOutstanding(c, s, changes, start)
    ensures SaveInv(c, TakeStep(c, s, step), m0, start)
    ensures AllOutstanding(c, TakeStep(c, s, step), changes + [ChangeOf(c, s, step)], start)
  {
    hide BlindRight, PlanesRight, OnSchedule, Replay, Touches, Outstanding, Inv;
    var s', last := TakeStep(c, s, step), ChangeOf(c, s, step);
    StepKeeps(c, s, step, m0, start);
    if step.Edit? || step.Announce? {
      assert Since(s', start) == Since(s, start) + [step.u];
      TouchesMore(c.dims, Since(s, start), step.u);
    } else {
      assert step.Other? ==> s'.trace.hist == s.trace.hist by { if step.Other? { OtherLogs(s, step.w); } }
      assert Since(s', start) == Since(s, start);
    }
    forall i | 0 <= i < |s'.level|
      ensures s'.level[i] != s'.told[i] ==> Outstanding(changes + [last], i)
      ensures i in s'.saver.blind && !Touches(c.dims, Since(s', start), i) ==> Outstanding(changes + [last], i)
    {
      OutstandingMore(changes, last, i);
    }
  }

  lemma OtherLogs(s: State, w: Write<Update>)
    requires Inv(s.ring, s.trace) && Possible(s.ring, w) && !w.WAppend?
    ensures ApplyTrace(s.ring, s.trace, w).hist == s.trace.hist
  {
  }

  lemma {:induction false} OutstandingKept(c: Config, states: seq<State>, steps: seq<Step>)
    requires IsRun(c, states, steps) && states[0].level == states[0].told
    requires WellFormed(c, states[0]) && states[0].saver == Begin(states[0].ring)
    requires |steps| > 0 ==> !states[|steps| - 1].saver.phase.Finished?
    ensures var s, start := states[|steps|], |states[0].trace.hist|;
            && SaveInv(c, s, states[0].told, start) && AllOutstanding(c, s, Changes(c, states, steps), start)
    decreases |steps|
  {
    hide SaveInv, AllOutstanding;
    if |steps| == 0 {
      BeginKeeps(c, states[0]);
      assert Changes(c, states, steps) == [];
      assert AllOutstanding(c, states[0], [], |states[0].trace.hist|) by { BeginsClean(c, states[0]); }
    } else {
      var n := |steps| - 1;
      NotYetFinished(c, states, steps);
      OutstandingKept(c, states[..n + 1], steps[..n]);
      OutstandingStays(c, states[n], steps[n], Changes(c, states[..n + 1], steps[..n]), states[0].told,
                       |states[0].trace.hist|);
    }
  }

  lemma BeginsClean(c: Config, s: State)
    requires WellFormed(c, s) && s.level == s.told && s.saver == Begin(s.ring)
    ensures Since(s, |s.trace.hist|) == [] && AllOutstanding(c, s, [], |s.trace.hist|)
  {
  }

  /** A finished save stays finished. */
  lemma NotYetFinished(c: Config, states: seq<State>, steps: seq<Step>)
    requires IsRun(c, states, steps) && |steps| > 0 && !states[|steps| - 1].saver.phase.Finished?
    ensures |steps| > 1 ==> !states[|steps| - 2].saver.phase.Finished?
  {
    if |steps| > 1 {
      var n := |steps| - 2;
      assert CanStep(c, states[n], steps[n]) && states[n + 1] == TakeStep(c, states[n], steps[n]);
    }
  }

  /** Nothing is silently changed to begin with; each silent write, up to the step that finds
      the queue drained, has been followed by a locked edit of its cell, or by an entry that
      says what the cell holds. */
  ghost predicate WritesSettled(c: Config, states: seq<State>, steps: seq<Step>)
    requires IsRun(c, states, steps)
  {
    && states[0].level == states[0].told
    && |steps| > 0 && !states[|steps| - 1].saver.phase.Finished?
    && forall i :: 0 <= i < Volume(c.dims) ==> !Outstanding(Changes(c, states, steps), i)
  }

  /** That is enough for the save to be that moment of the map. */
  lemma SettledSave(c: Config, states: seq<State>, steps: seq<Step>)
    requires IsSave(c, states, steps) && WritesSettled(c, states, steps)
    ensures var s, v := states[|steps|], states[|steps|].saver;
            && AllFit(c.dims, v.redo) && WellSized(v.planes, Volume(c.dims))
            && Replay(c.dims, Load(v.planes), v.redo) == v.final == s.level
  {
    hide SaveInv, Outstanding, Replay, Load, BlindRight, PlanesRight;
    OutstandingKept(c, states, steps);
    FinishIsAMoment(c, states, steps);
    SavedShape(c, states, steps);
    var v := states[|steps|].saver;
    assert NoneSlips(c, v);
    assert v.told == v.final;
    SaveIsAMoment(c, states, steps);
  }

  /** So a save is always a moment of the map where every edit is one locked step. */
  lemma LockedSave(c: Config, states: seq<State>, steps: seq<Step>)
    requires IsSave(c, states, steps) && EditsLocked(c, states, steps)
    ensures var v := states[|steps|].saver;
            && AllFit(c.dims, v.redo) && WellSized(v.planes, Volume(c.dims))
            && Replay(c.dims, Load(v.planes), v.redo) == v.final
  {
    hide IsRun, Replay, Load, WellSized;
    LockedEditsOnly(c, states, steps);
    SaveIsAMoment(c, states, steps);
  }

  /** No run gets stuck: whoever wants to edit, and the saver itself, can go on. */
  lemma RunGoesOn(c: Config, states: seq<State>, steps: seq<Step>, step: Step)
    requires IsRun(c, states, steps)
    requires WellFormed(c, states[0]) && states[0].saver == Begin(states[0].ring)
    requires step.Edit? || step.Announce? ==> Fits(c.dims, step.u)
    requires step.Write? ==> 0 <= step.i < Volume(c.dims)
    requires step.Other? ==> !step.w.WAppend? && Possible(states[|steps|].ring, step.w)
    ensures CanStep(c, states[|steps|], step)
  {
    RunKeeps(c, states, steps);
    var last := states[|steps|];
    if step.Save? && last.saver.phase.Draining? {
      DrainKeeps(c, last, states[0].told, |states[0].trace.hist|);
    }
  }
}
