/** Keeping a client's copy of the map up to date while every session edits it.

    A session notes its place in the block queue, sends the whole map without
    holding the lock (low bytes first, then high bytes if any are needed), and from
    then on forwards queued changes.  If its place is overwritten it asks for the
    map again.  Steps are atomic as in a save: one locked edit, one write to a cell
    that is not in the queue yet, one late entry, some other change to the queue, one
    cell copied, or one entry forwarded. */
module LiveClient {
  import opened Ring
  import opened World

  datatype Phase = NoMap | LowPass | HighPass | Live

  /** `low` and `high` are the bytes of the map transfer; `view` is what the client shows
      once the transfer is complete.  The rest only serves to say what comes of it: the
      length of the history and the map according to the queue when the transfer began, the
      blocks found in the cells, and the cells that were copied while silently changed. */
  datatype Session = Session(
    phase: Phase, reader: Reader, reloadPending: nat,
    low: seq<Byte>, high: seq<Byte>, needHigh: bool, view: seq<Block>,
    startAt: nat, atStart: seq<Block>, seenLow: seq<Block>, seenHigh: seq<Block>, blind: set<int>)

  /** `told` is the map according to the queue; a cell is silently changed while it holds
      something else. */
  datatype State = State(
    level: seq<Block>, told: seq<Block>, ring: Ring<Update>, trace: Trace<Update>, session: Session)

  /** `shown` is what a block looks like to this client; see BlockConvert. */
  datatype Config = Config(dims: Dims, shown: Block -> Block, extendedBlocks: bool)

  datatype Step =
    | Edit(u: Update)              // a cell and the queue, under one lock
    | Write(i: int, b: Block)      // a cell, and nothing in the queue
    | Announce(u: Update)          // an entry in the queue, and nothing in the cell
    | Other(w: Write<Update>)      // growth, repair, "/reload all"
    | StartMap                     // this session begins to send the map
    | CopyCell                     // ... and sends the next byte of it
    | Forward                      // one pass of the loop in send_queued_blocks
    | AskReload                    // "/reload"
    | Tick(outputPending: bool)    // the countdown of a pending reload

  const RELOAD_DELAY: nat := 100

  ghost predicate WellFormed(c: Config, s: State) {
    FitsWidth(c) && |s.level| == |s.told| == Volume(c.dims) && Inv(s.ring, s.trace)
  }

  function Shown(c: Config, b: Block): Block { c.shown(b) }

  /** The client is only shown what the negotiated width has room for. */
  ghost predicate FitsWidth(c: Config) {
    forall b: Block :: Shown(c, b) < if c.extendedBlocks then CPELIMIT else 256
  }

  function ShownMap(c: Config, m: seq<Block>): (r: seq<Block>)
    ensures |r| == |m|
  {
    seq(|m|, i requires 0 <= i < |m| => Shown(c, m[i]))
  }

  /** `send_setblock_pkt` */
  function ShownUpdate(c: Config, u: Update): Update
  {
    u.(b := Shown(c, u.b))
  }

  function ShownLog(c: Config, log: seq<Update>): (r: seq<Update>)
    ensures |r| == |log|
  {
    seq(|log|, i requires 0 <= i < |log| => ShownUpdate(c, log[i]))
  }

  // ---- The session's steps -----------------------------------------------------------

  function Start(s: State): Session {
    Session(LowPass, Mark(s.ring), 0, [], [], false, [], |s.trace.hist|, s.told, [], [], {})
  }

  /** What the client makes of the bytes it was sent. */
  function Assemble(low: seq<Byte>, high: seq<Byte>): seq<Block> {
    seq(|low|, i requires 0 <= i < |low| => if i < |high| then Wide(low[i], high[i]) else low[i])
  }

  function Wide(low: int, high: int): Block
    requires 0 <= low < 256 && 0 <= high < 256
  {
    low + high * 256
  }

  function HighPart(b: Block): Byte {
    if b < CPELIMIT then b / 256 else 0
  }

  ghost function CopyStep(c: Config, s: State): Session
    requires WellFormed(c, s)
  {
    var v := s.session;
    match v.phase
    case LowPass =>
      if |v.low| < |s.level| then
        var i := |v.low|;
        var b := Shown(c, s.level[i]);
        v.(low := v.low + [b % 256], needHigh := v.needHigh || b > 255,
           seenLow := v.seenLow + [s.level[i]], blind := Noticed(v.blind, s, i))
      else if v.needHigh && c.extendedBlocks then
        v.(phase := HighPass)
      else
        v.(phase := Live, view := Assemble(v.low, []))
    case HighPass =>
      if |v.high| < |s.level| then
        var i := |v.high|;
        v.(high := v.high + [HighPart(Shown(c, s.level[i]))],
           seenHigh := v.seenHigh + [s.level[i]], blind := Noticed(v.blind, s, i))
      else
        v.(phase := Live, view := Assemble(v.low, v.high))
    case _ => v
  }

  function Noticed(blind: set<int>, s: State, i: nat): set<int>
    requires i < |s.level| == |s.told|
  {
    if s.level[i] != s.told[i] then blind + {i} else blind
  }

  ghost function ForwardStep(c: Config, s: State): Session
    requires WellFormed(c, s)
  {
    var v := s.session;
    if !v.phase.Live? || v.reloadPending > 0 || v.reader.lastId < 0 || !Readable(s.ring, v.reader) then v
    else match Read(s.ring, v.reader)
      case Overflow => v.(reader := NoPosition, reloadPending := RELOAD_DELAY)
      case Drained => v
      case Got(u, next) =>
        if Fits(c.dims, u) && Cell(c.dims, u) < |v.view|
        then v.(reader := next, view := v.view[Cell(c.dims, u) := Shown(c, u.b)])
        else v.(reader := next)
  }

  /** The countdown also overwrites the slot number, but not the generation. */
  function TickStep(s: State, outputPending: bool): Session {
    var v := s.session;
    if !v.phase.Live? || v.reloadPending == 0 || outputPending then v
    else if v.reloadPending > 1 then
      var less := v.reloadPending - 1;
      v.(reloadPending := if less > 6 && v.reader.lastId == s.ring.currOffset then less - 5 else less,
         reader := v.reader.(lastId := s.ring.currOffset))
    else Start(s)
  }

  // ---- Everybody's steps ----------------------------------------------------------------

  ghost predicate CanStep(c: Config, s: State, step: Step) {
    && WellFormed(c, s)
    && (step.Edit? || step.Announce? ==> Fits(c.dims, step.u))
    && (step.Write? ==> 0 <= step.i < Volume(c.dims))
    && (step.Other? ==> !step.w.WAppend? && Possible(s.ring, step.w))
  }

  ghost function TakeStep(c: Config, s: State, step: Step): State
    requires CanStep(c, s, step)
  {
    match step
    case Edit(u) => Announced(c, s, u).(level := s.level[Cell(c.dims, u) := u.b])
    case Write(i, b) => s.(level := s.level[i := b])
    case Announce(u) => Announced(c, s, u)
    case Other(w) => s.(ring := Apply(s.ring, w), trace := ApplyTrace(s.ring, s.trace, w))
    case StartMap => if s.session.phase.NoMap? then s.(session := Start(s)) else s
    case CopyCell => s.(session := CopyStep(c, s))
    case Forward => s.(session := ForwardStep(c, s))
    case AskReload => if s.session.phase.Live? then s.(session := s.session.(reloadPending := 1)) else s
    case Tick(outputPending) => s.(session := TickStep(s, outputPending))
  }

  ghost function Announced(c: Config, s: State, u: Update): State
    requires WellFormed(c, s) && Fits(c.dims, u)
  {
    s.(told := s.told[Cell(c.dims, u) := u.b], ring := Append(s.ring, u), trace := AppendTrace(s.ring, s.trace, u))
  }

  ghost predicate IsRun(c: Config, states: seq<State>, steps: seq<Step>) {
    && |states| == |steps| + 1
    && (forall i :: 0 <= i < |steps| ==>
          CanStep(c, states[i], steps[i]) && states[i + 1] == TakeStep(c, states[i], steps[i]))
  }

  // ---- What every step keeps ---------------------------------------------------------------

  /** Everything that has been queued since the transfer began. */
  ghost function Since(s: State): seq<Update>
    requires s.session.startAt <= |s.trace.hist|
  {
    s.trace.hist[s.session.startAt..]
  }

  /** The entries that the session has passed on. */
  ghost function PassedOn(s: State): seq<Update>
    requires Tracks(s.ring, s.trace, s.session.reader)
    requires s.session.startAt <= Position(s.trace, s.session.reader)
  {
    s.trace.hist[s.session.startAt..Position(s.trace, s.session.reader)]
  }

  /** ... and those that it has not. */
  ghost function Unread(s: State): seq<Update>
    requires Tracks(s.ring, s.trace, s.session.reader)
  {
    s.trace.hist[Position(s.trace, s.session.reader)..]
  }

  /** The bytes sent are those of the blocks found. */
  ghost predicate BytesRight(c: Config, v: Session, n: nat) {
    && |v.low| == |v.seenLow| <= n && |v.high| == |v.seenHigh| <= n
    && (forall j :: 0 <= j < |v.low| ==>
          v.low[j] == Shown(c, v.seenLow[j]) % 256 && (Shown(c, v.seenLow[j]) > 255 ==> v.needHigh))
    && (forall j :: 0 <= j < |v.high| ==> v.high[j] == HighPart(Shown(c, v.seenHigh[j])))
    && (match v.phase
        case NoMap => true
        case LowPass => v.high == []
        case HighPass => |v.low| == n && v.needHigh && c.extendedBlocks
        case Live => |v.low| == n && |v.high| == if v.needHigh && c.extendedBlocks then n else 0)
  }

  predicate FoundOther(seen: seq<Block>, m0: seq<Block>, j: int) {
    0 <= j < |seen| && j < |m0| && seen[j] != m0[j]
  }

  /** Of the cells that the log does not name, those in `blind` are the ones that were found
      other than the queue says. */
  ghost predicate BlindRight(c: Config, v: Session, log: seq<Update>)
    requires AllFit(c.dims, log)
  {
    forall j :: 0 <= j < |v.atStart| && !Touches(c.dims, log, j) ==>
      (j in v.blind <==> FoundOther(v.seenLow, v.atStart, j) || FoundOther(v.seenHigh, v.atStart, j))
  }

  /** What is known of a transfer, complete or not. */
  ghost predicate Accounted(c: Config, s: State) {
    && s.session.startAt <= |s.trace.hist| && AllFit(c.dims, Since(s))
    && |s.session.atStart| == |s.told| == Volume(c.dims)
    && Replay(c.dims, s.session.atStart, Since(s)) == s.told
    && BytesRight(c, s.session, Volume(c.dims)) && BlindRight(c, s.session, Since(s))
    && Tracks(s.ring, s.trace, s.session.reader)
    && s.session.startAt <= Position(s.trace, s.session.reader)
  }

  ghost predicate Sending(c: Config, s: State) {
    Accounted(c, s) && Position(s.trace, s.session.reader) == s.session.startAt
  }

  /** The client shows what it was sent, and on it what was passed on. */
  ghost predicate Synchronised(c: Config, s: State) {
    && s.session.phase.Live? && Accounted(c, s) && AllFit(c.dims, ShownLog(c, PassedOn(s)))
    && s.session.view == Replay(c.dims, Assemble(s.session.low, s.session.high), ShownLog(c, PassedOn(s)))
  }

  /** In every reachable state the session has no map yet, is sending it, has a reload
      pending, or its client is synchronised up to the unread part of the queue. */
  ghost predicate SessionInv(c: Config, s: State) {
    && WellFormed(c, s)
    && (match s.session.phase
        case NoMap => true
        case Live => s.session.reloadPending > 0 || Synchronised(c, s)
        case _ => Sending(c, s))
  }

  lemma ShownLogOne(c: Config, log: seq<Update>, u: Update)
    ensures ShownLog(c, log + [u]) == ShownLog(c, log) + [ShownUpdate(c, u)]
  {
  }

  lemma TouchesShown(c: Config, log: seq<Update>, i: int)
    requires AllFit(c.dims, log)
    ensures AllFit(c.dims, ShownLog(c, log))
    ensures Touches(c.dims, ShownLog(c, log), i) <==> Touches(c.dims, log, i)
  {
    var shown := ShownLog(c, log);
    forall k | 0 <= k < |log| ensures Fits(c.dims, shown[k]) && Cell(c.dims, shown[k]) == Cell(c.dims, log[k]) {
      assert log[k] in log;
    }
    if Touches(c.dims, log, i) {
      var k :| 0 <= k < |log| && Cell(c.dims, log[k]) == i;
      assert Cell(c.dims, shown[k]) == i;
    }
  }

  /** Converting every block commutes with replaying a log. */
  lemma {:induction false} ShownReplay(c: Config, m: seq<Block>, log: seq<Update>)
    requires |m| == Volume(c.dims) && AllFit(c.dims, log)
    ensures AllFit(c.dims, ShownLog(c, log))
    ensures Replay(c.dims, ShownMap(c, m), ShownLog(c, log)) == ShownMap(c, Replay(c.dims, m, log))
    decreases |log|
  {
    TouchesShown(c, log, 0);
    if log != [] {
      var n := |log| - 1;
      ShownReplay(c, m, log[..n]);
      assert ShownLog(c, log)[..n] == ShownLog(c, log[..n]);
    }
  }

  lemma NamedMore(c: Config, v: Session, log: seq<Update>, u: Update)
    requires AllFit(c.dims, log) && Fits(c.dims, u) && BlindRight(c, v, log)
    ensures AllFit(c.dims, log + [u]) && BlindRight(c, v, log + [u])
  {
    hide FoundOther, Touches;
    TouchesMore(c.dims, log, u);
  }

  lemma AccountsAnnounced(c: Config, s: State, u: Update)
    requires WellFormed(c, s) && Accounted(c, s) && Fits(c.dims, u)
    ensures WellFormed(c, Announced(c, s, u)) && Accounted(c, Announced(c, s, u))
    ensures Position(Announced(c, s, u).trace, s.session.reader) == Position(s.trace, s.session.reader)
  {
    hide BlindRight, BytesRight, Replay, FitsWidth, Inv;
    var s' := Announced(c, s, u);
    WriteKeepsInv(s.ring, s.trace, WAppend(u));
    assert Since(s') == Since(s) + [u];
    ReplayOne(c.dims, s.session.atStart, Since(s), u);
    NamedMore(c, s.session, Since(s), u);
  }

  lemma AnnounceKeeps(c: Config, s: State, u: Update)
    requires SessionInv(c, s) && Fits(c.dims, u)
    ensures SessionInv(c, Announced(c, s, u))
  {
    hide Accounted, Replay, Inv, FitsWidth;
    var s' := Announced(c, s, u);
    WriteKeepsInv(s.ring, s.trace, WAppend(u));
    if Accounted(c, s) {
      AccountsAnnounced(c, s, u);
      AccountedMeans(c, s);
      AccountedMeans(c, s');
      assert PassedOn(s') == PassedOn(s);
    }
  }

  lemma AccountedMeans(c: Config, s: State)
    requires Accounted(c, s)
    ensures Tracks(s.ring, s.trace, s.session.reader)
            && s.session.startAt <= Position(s.trace, s.session.reader) <= |s.trace.hist|
    ensures |s.session.low| <= Volume(c.dims) && |s.told| == |s.session.atStart| == Volume(c.dims)
    ensures s.session.phase.Live? ==> |Assemble(s.session.low, s.session.high)| == Volume(c.dims)
    ensures s.session.startAt <= |s.trace.hist| && AllFit(c.dims, Since(s)) && AllFit(c.dims, PassedOn(s))
  {
  }

  lemma WriteKeeps(c: Config, s: State, level: seq<Block>)
    requires SessionInv(c, s) && |level| == |s.level|
    ensures SessionInv(c, s.(level := level))
  {
    hide Replay, Inv, FitsWidth, BlindRight, BytesRight, Tracks;
  }

  lemma OtherKeeps(c: Config, s: State, w: Write<Update>)
    requires SessionInv(c, s) && CanStep(c, s, Other(w))
    ensures SessionInv(c, TakeStep(c, s, Other(w)))
  {
    hide Replay, FitsWidth, BlindRight, BytesRight;
    WriteKeepsInv(s.ring, s.trace, w);
    var s' := TakeStep(c, s, Other(w));
    if Accounted(c, s) {
      assert Since(s') == Since(s) && PassedOn(s') == PassedOn(s);
    }
  }

  lemma StartKeeps(c: Config, s: State)
    requires WellFormed(c, s)
    ensures SessionInv(c, s.(session := Start(s)))
  {
    MarkTracks(s.ring, s.trace);
    assert Since(s.(session := Start(s))) == [];
  }

  lemma CopyKeepsBlind(c: Config, s: State)
    requires WellFormed(c, s) && Accounted(c, s) && (s.session.phase.LowPass? || s.session.phase.HighPass?)
    ensures BlindRight(c, CopyStep(c, s), Since(s))
  {
    hide Inv, Replay, FitsWidth, Touches;
    var v, v', log := s.session, CopyStep(c, s), Since(s);
    var i := if v.phase.LowPass? then |v.low| else |v.high|;
    if i < |s.level| && !Touches(c.dims, log, i) { ReplayLeaves(c.dims, v.atStart, log, i); }
  }

  lemma CopyKeeps(c: Config, s: State)
    requires SessionInv(c, s) && (s.session.phase.LowPass? || s.session.phase.HighPass?)
    ensures SessionInv(c, s.(session := CopyStep(c, s)))
  {
    hide Inv, FitsWidth, Replay, BlindRight;
    CopyKeepsBlind(c, s);
    var s' := s.(session := CopyStep(c, s));
    assert Since(s') == Since(s) && Accounted(c, s');
    if s'.session.phase.Live? {
      assert PassedOn(s') == [] && ShownLog(c, []) == [];
      ReplayNone(c.dims, s'.session.view);
      assert s.session.phase.LowPass? ==> s.session.high == [];
    }
  }

  lemma ReplayNone(d: Dims, m: seq<Block>)
    requires |m| == Volume(d)
    ensures Replay(d, m, []) == m
  {
  }

  lemma ForwardKeeps(c: Config, s: State)
    requires SessionInv(c, s)
    ensures SessionInv(c, s.(session := ForwardStep(c, s)))
  {
    hide Inv, FitsWidth, Replay, BlindRight, BytesRight;
    var v := s.session;
    if v.phase.Live? && v.reloadPending == 0 {
      ReadIsExact(s.ring, s.trace, v.reader);
      var r := Read(s.ring, v.reader);
      if r.Got? {
        var s' := s.(session := ForwardStep(c, s));
        AccountedMeans(c, s);
        var at := Position(s.trace, v.reader);
        assert Since(s)[at - v.startAt] == r.update && r.update in Since(s);
        assert s'.trace.hist[v.startAt..at + 1] == PassedOn(s) + [r.update];
        ShownLogOne(c, PassedOn(s), r.update);
        ReplayOne(c.dims, Assemble(v.low, v.high), ShownLog(c, PassedOn(s)), ShownUpdate(c, r.update));
        SameBytes(c, v, s'.session, Since(s));
      }
    }
  }

  lemma SameBytes(c: Config, v: Session, v': Session, log: seq<Update>)
    requires v' == v.(reader := v'.reader, view := v'.view) && AllFit(c.dims, log)
    ensures BytesRight(c, v, Volume(c.dims)) ==> BytesRight(c, v', Volume(c.dims))
    ensures BlindRight(c, v, log) ==> BlindRight(c, v', log)
  {
  }

  lemma StepKeeps(c: Config, s: State, step: Step)
    requires SessionInv(c, s) && CanStep(c, s, step)
    ensures SessionInv(c, TakeStep(c, s, step))
  {
    hide Inv, FitsWidth, Accounted;
    match step {
      case Edit(u) =>
        AnnounceKeeps(c, s, u);
        WriteKeeps(c, Announced(c, s, u), s.level[Cell(c.dims, u) := u.b]);
      case Write(i, b) => WriteKeeps(c, s, s.level[i := b]);
      case Announce(u) => AnnounceKeeps(c, s, u);
      case Other(w) => OtherKeeps(c, s, w);
      case StartMap => StartKeeps(c, s);
      case CopyCell => if s.session.phase.LowPass? || s.session.phase.HighPass? { CopyKeeps(c, s); }
      case Forward => ForwardKeeps(c, s);
      case AskReload =>
      case Tick(_) => StartKeeps(c, s);
    }
  }

  ghost predicate IsInitial(c: Config, s: State) {
    WellFormed(c, s) && s.session.phase.NoMap?
  }

  lemma {:induction false} RunKeeps(c: Config, states: seq<State>, steps: seq<Step>)
    requires IsRun(c, states, steps) && IsInitial(c, states[0])
    ensures SessionInv(c, states[|steps|])
    decreases |steps|
  {
    hide SessionInv;
    if |steps| > 0 {
      var n := |steps| - 1;
      RunKeeps(c, states[..n + 1], steps[..n]);
      StepKeeps(c, states[n], steps[n]);
    } else {
      InitialKeeps(c, states[0]);
    }
  }

  lemma InitialKeeps(c: Config, s: State)
    requires IsInitial(c, s)
    ensures SessionInv(c, s)
  {
  }

  // ---- What the client shows ----------------------------------------------------------------

  /** Some entry since the transfer began is about this cell. */
  ghost predicate Named(c: Config, s: State, i: int)
    requires Accounted(c, s)
  {
    Touches(c.dims, Since(s), i)
  }

  /** The bytes sent for a cell amount to `t`, whichever moments they are from. */
  ghost predicate SentRight(c: Config, v: Session, i: nat, t: Block)
    requires i < |v.seenLow| && (v.high != [] ==> i < |v.seenHigh|)
  {
    && Shown(c, v.seenLow[i]) % 256 == Shown(c, t) % 256
    && Shown(c, t) / 256 == if v.high != [] then Shown(c, v.seenHigh[i]) / 256 else 0
  }

  lemma AssembledRight(c: Config, s: State, i: nat, t: Block)
    requires WellFormed(c, s) && Accounted(c, s) && s.session.phase.Live? && i < Volume(c.dims)
    ensures i < |s.session.seenLow| && (s.session.high != [] ==> i < |s.session.seenHigh|)
    ensures |Assemble(s.session.low, s.session.high)| == Volume(c.dims)
    ensures Assemble(s.session.low, s.session.high)[i] == Shown(c, t) <==> SentRight(c, s.session, i, t)
  {
    hide Inv, BlindRight, Replay;
    var v := s.session;
    assert v.low[i] == Shown(c, v.seenLow[i]) % 256;
    if v.high != [] {
      assert v.high[i] == HighPart(Shown(c, v.seenHigh[i])) && Shown(c, v.seenHigh[i]) < CPELIMIT;
    }
  }

  /** The session has its map and its place in the queue. */
  ghost predicate IsLive(c: Config, s: State) {
    SessionInv(c, s) && s.session.phase.Live? && s.session.reloadPending == 0
  }

  lemma LiveMeans(c: Config, s: State)
    requires IsLive(c, s)
    ensures Accounted(c, s) && |s.level| == |s.told| == |s.session.view| == Volume(c.dims)
    ensures |Assemble(s.session.low, s.session.high)| == Volume(c.dims)
    ensures Since(s) == PassedOn(s) + Unread(s)
    ensures AllFit(c.dims, ShownLog(c, PassedOn(s))) && AllFit(c.dims, ShownLog(c, Unread(s)))
  {
    hide Inv, FitsWidth, BlindRight, Replay;
    AccountedMeans(c, s);
    assert Since(s) == PassedOn(s) + Unread(s);
    assert AllFit(c.dims, Unread(s));
    TouchesShown(c, Unread(s), 0);
  }

  /** What the client shows, with the entries that it has not been sent yet: what it is going
      to show if nothing more is queued, and what it does show if nothing is unread. */
  ghost function CaughtUp(c: Config, s: State): (r: seq<Block>)
    requires IsLive(c, s)
    ensures |r| == Volume(c.dims)
    ensures Tracks(s.ring, s.trace, s.session.reader) && (Unread(s) == [] ==> r == s.session.view)
  {
    LiveMeans(c, s);
    Replay(c.dims, s.session.view, ShownLog(c, Unread(s)))
  }

  /** It makes no difference which entries have been passed on already. */
  lemma CaughtUpIsAll(c: Config, s: State)
    requires IsLive(c, s)
    ensures Accounted(c, s) && AllFit(c.dims, ShownLog(c, Since(s)))
    ensures |Assemble(s.session.low, s.session.high)| == Volume(c.dims)
    ensures CaughtUp(c, s) == Replay(c.dims, Assemble(s.session.low, s.session.high), ShownLog(c, Since(s)))
  {
    hide Inv, FitsWidth, BlindRight, BytesRight, Replay;
    LiveMeans(c, s);
    ReplayConcat(c.dims, Assemble(s.session.low, s.session.high), ShownLog(c, PassedOn(s)), ShownLog(c, Unread(s)));
    assert ShownLog(c, Since(s)) == ShownLog(c, PassedOn(s)) + ShownLog(c, Unread(s));
  }

  /** A cell shows what the queue has last said of it since the transfer began, or else what
      was sent. */
  lemma ViewCell(c: Config, s: State, i: nat)
    requires IsLive(c, s) && i < Volume(c.dims)
    ensures Accounted(c, s) && |s.told| == |Assemble(s.session.low, s.session.high)| == Volume(c.dims)
    ensures CaughtUp(c, s)[i]
         == if Named(c, s, i) then Shown(c, s.told[i]) else Assemble(s.session.low, s.session.high)[i]
  {
    hide IsLive, Inv, FitsWidth, BlindRight, BytesRight, Replay, Touches, CaughtUp;
    LiveMeans(c, s);
    CaughtUpIsAll(c, s);
    var v, log := s.session, Since(s);
    var sent := Assemble(v.low, v.high);
    TouchesShown(c, log, i);
    if Touches(c.dims, log, i) {
      ShownReplay(c, v.atStart, log);
      ReplayTouched(c.dims, sent, ShownMap(c, v.atStart), ShownLog(c, log), i);
    } else {
      ReplayLeaves(c.dims, sent, ShownLog(c, log), i);
    }
  }

  /** What has to be so for the view to be exact: a cell looks like what the queue has last
      said of it, and one that the queue has not named was sent right. */
  ghost predicate Faithful(c: Config, s: State)
    requires Accounted(c, s) && s.session.phase.Live? && |s.level| == Volume(c.dims)
  {
    forall i :: 0 <= i < |s.level| ==> CellFaithful(c, s, i)
  }

  ghost predicate CellFaithful(c: Config, s: State, i: nat)
    requires Accounted(c, s) && s.session.phase.Live? && i < |s.level| == Volume(c.dims)
  {
    if Named(c, s, i) then Shown(c, s.told[i]) == Shown(c, s.level[i])
    else SentRight(c, s.session, i, s.level[i])
  }

  /** Every cell that was copied while it was silently changed has been named since. */
  ghost predicate NoneSlips(c: Config, s: State)
    requires Accounted(c, s)
  {
    forall i :: i in s.session.blind && 0 <= i < Volume(c.dims) ==> Named(c, s, i)
  }

  /** The end of a transfer, and every moment after: with what is still unread, a cell that was
      not copied while silently changed, or has been named since, shows what the queue says of
      it. */
  lemma TransferSynchronises(c: Config, s: State, i: nat)
    requires IsLive(c, s) && i < Volume(c.dims)
    ensures Accounted(c, s)
    ensures i !in s.session.blind || Named(c, s, i) ==> CaughtUp(c, s)[i] == Shown(c, s.told[i])
  {
    hide IsLive, CaughtUp, Inv, Replay, Touches;
    LiveMeans(c, s);
    ViewCell(c, s, i);
    if !Named(c, s, i) && i !in s.session.blind {
      ReplayLeaves(c.dims, s.session.atStart, Since(s), i);
      LiveIsSound(c, s);
      AssembledRight(c, s, i, s.told[i]);
      OneByteEnough(c, s, i);
    }
  }

  lemma LiveIsSound(c: Config, s: State)
    requires IsLive(c, s)
    ensures WellFormed(c, s) && s.session.phase.Live?
  {
  }

  lemma OneByteEnough(c: Config, s: State, i: nat)
    requires WellFormed(c, s) && Accounted(c, s) && s.session.phase.Live? && i < Volume(c.dims)
    requires !FoundOther(s.session.seenLow, s.session.atStart, i)
             && !FoundOther(s.session.seenHigh, s.session.atStart, i)
    ensures i < |s.session.seenLow| && (s.session.high != [] ==> i < |s.session.seenHigh|)
    ensures SentRight(c, s.session, i, s.session.atStart[i])
  {
    hide Inv, BlindRight, Replay;
  }

  // ---- Catching up --------------------------------------------------------------------------

  /** One pass either finds the place lost, or nothing unread, or leaves one entry less. */
  lemma ForwardProgress(c: Config, s: State)
    requires IsLive(c, s)
    ensures var s' := s.(session := ForwardStep(c, s));
            && SessionInv(c, s') && s'.session.phase.Live?
            && Tracks(s.ring, s.trace, s.session.reader)
            && (s'.session.reloadPending > 0
                || if |Unread(s)| == 0 then s' == s
                   else Tracks(s'.ring, s'.trace, s'.session.reader) && |Unread(s')| == |Unread(s)| - 1)
  {
    hide Inv, Shown, FitsWidth, BlindRight, BytesRight, Replay;
    ReadIsExact(s.ring, s.trace, s.session.reader);
    ForwardKeeps(c, s);
    var s' := s.(session := ForwardStep(c, s));
    if |Unread(s)| > 0 && s'.session.reloadPending == 0 {
      assert Synchronised(c, s');
      assert Unread(s') == Unread(s)[1..];
    }
  }

  /** It does not change what the client is going to show. */
  lemma ForwardSame(c: Config, s: State)
    requires IsLive(c, s) && IsLive(c, s.(session := ForwardStep(c, s)))
    ensures CaughtUp(c, s.(session := ForwardStep(c, s))) == CaughtUp(c, s)
  {
    hide CaughtUp, Inv, Shown, FitsWidth, BlindRight, BytesRight, Replay, Read, Readable;
    var s' := s.(session := ForwardStep(c, s));
    CaughtUpIsAll(c, s);
    CaughtUpIsAll(c, s');
    assert Since(s') == Since(s) && s'.session.low == s.session.low && s'.session.high == s.session.high;
  }

  /** Left alone, a live client catches up: forwarding as many times as there are unread
      entries leaves it with nothing unread, and showing what it was going to show, or with a
      reload pending. */
  lemma {:induction false} CatchesUp(c: Config, s: State)
    requires IsLive(c, s)
    ensures Tracks(s.ring, s.trace, s.session.reader)
    ensures var s' := s.(session := ForwardAll(c, s, |Unread(s)|));
            && SessionInv(c, s') && s'.session.phase.Live?
            && (s'.session.reloadPending > 0
                || (Tracks(s'.ring, s'.trace, s'.session.reader) && Unread(s') == []
                    && s'.session.view == CaughtUp(c, s)))
    decreases if Tracks(s.ring, s.trace, s.session.reader) then |Unread(s)| else 0
  {
    hide Inv, ForwardStep, FitsWidth, BlindRight, BytesRight, Replay, CaughtUp;
    ForwardProgress(c, s);
    if |Unread(s)| > 0 {
      var s' := s.(session := ForwardStep(c, s));
      if s'.session.reloadPending == 0 {
        ForwardSame(c, s);
        CatchesUp(c, s');
      } else {
        WellFormedStays(c, s);
        PendingStays(c, s', |Unread(s)| - 1);
      }
    }
  }

  lemma WellFormedStays(c: Config, s: State)
    requires SessionInv(c, s)
    ensures WellFormed(c, s)
  {
  }

  ghost function ForwardAll(c: Config, s: State, times: nat): Session
    requires WellFormed(c, s)
    decreases times
  {
    if times == 0 then s.session else ForwardAll(c, s.(session := ForwardStep(c, s)), times - 1)
  }

  lemma {:induction false} PendingStays(c: Config, s: State, times: nat)
    requires WellFormed(c, s) && s.session.reloadPending > 0
    ensures ForwardAll(c, s, times) == s.session
    decreases times
  {
    if times > 0 {
      assert s.(session := ForwardStep(c, s)) == s;
      PendingStays(c, s, times - 1);
    }
  }
}
