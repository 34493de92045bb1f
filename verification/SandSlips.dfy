/** Falling sand can slip through a save and through the transfer of a map.  The column is
    air, sand, sand: the sand in the middle falls, its cell is emptied and, before anything is
    queued for it, filled again by the sand from above. */
module SandSlips {
  import opened Ring
  import opened World
  import opened FallingSand
  import opened BlockPlanes
  import opened SandSteps
  import LiveClient
  import SaveProtocol

  const SAND: Block := 12
  const COLUMN := Dims(1, 3, 1)

  function Cells(a: Block, b: Block, c: Block): seq<Block> { [a, b, c] }

  /** The two entries that are queued while the column settles. */
  const DOWN := Update(0, 0, 0, SAND)
  const EMPTY := Update(0, 2, 0, AIR)

  function EmptyRing(): Ring<Update> { Ring(1, 0, MIN_QUEUE, MIN_QUEUE, seq(MIN_QUEUE, _ => EMPTY)) }

  const NOTHING: Trace<Update> := Trace([], map[1 := 0])

  lemma EmptyRingInv()
    ensures Inv(EmptyRing(), NOTHING)
  {
  }

  lemma ColumnCells()
    ensures Volume(COLUMN) == 3 && Fits(COLUMN, DOWN) && Fits(COLUMN, EMPTY)
    ensures Cell(COLUMN, DOWN) == 0 && Cell(COLUMN, EMPTY) == 2
  {
  }

  /** What `check_for_sand` does to the column, in order. */
  const FALL := [Wrote(0, SAND), Queued(0, SAND), Wrote(1, AIR), Wrote(1, SAND), Wrote(2, AIR), Queued(2, AIR)]

  /** What the column becomes, and how. */
  lemma ColumnSettles(falls: Falls)
    requires falls[SAND]
    ensures Settle(falls, Cells(AIR, SAND, SAND), 1) == Cells(SAND, SAND, AIR)
    ensures SandDoings(falls, Cells(AIR, SAND, SAND), 1) == FALL
  {
    var col := Cells(AIR, SAND, SAND);
    assert Floor(falls, col, 0) == 0 && Floor(falls, col, 1) == 0;
    assert FirstAir(col, 0) == 0;
    assert FirstFirm(falls, col, 3) == 3 && FirstFirm(falls, col, 2) == 3 && FirstFirm(falls, col, 1) == 3;
    assert FirstFirm(falls, col, 0) == 3;
    assert col[0..1] == col[..1] == [AIR] && [AIR][..0] == [] && Solids([AIR]) == [];
    assert col[0..2] == col[..2] == [AIR, SAND] && [AIR, SAND][..1] == [AIR] && Solids([AIR, SAND]) == [SAND];
    assert col[..3] == col && col[0..3] == col && Solids(col) == [SAND, SAND];
    assert Moves(col, 0, 1) == [] && LastSolid(col, 0, 1) == -1 && LastSolid(col, 0, 2) == 1;
    assert Moves(col, 0, 2) == [Wrote(0, SAND), Queued(0, SAND), Wrote(1, AIR)];
    assert Moves(col, 0, 3) == Moves(col, 0, 2) + [Wrote(1, SAND), Wrote(2, AIR)];
  }

  // ---- The save -------------------------------------------------------------------------

  function Saving(): (c: SaveProtocol.Config)
    ensures |c.fallback| == 256 && c.dims == COLUMN && !c.usePhysics
  {
    SaveProtocol.Config(COLUMN, false, seq(256, _ => 0))
  }

  /** A run of the save of the column, so far. */
  datatype Run = Run(states: seq<SaveProtocol.State>, steps: seq<SaveProtocol.Step>)

  ghost predicate Goes(r: Run) {
    |r.states| == |r.steps| + 1 && SaveProtocol.IsRun(Saving(), r.states, r.steps)
    && SaveProtocol.WellFormed(Saving(), r.states[|r.steps|])
  }

  ghost function Now(r: Run): SaveProtocol.State
    requires Goes(r)
  {
    r.states[|r.steps|]
  }

  /** The steps of a run that are not the saver's. */
  function Meanwhile(steps: seq<SaveProtocol.Step>): seq<SaveProtocol.Step> {
    if steps == [] then []
    else
      var (front, last) := (Meanwhile(steps[..|steps| - 1]), steps[|steps| - 1]);
      if last.Save? then front else front + [last]
  }

  /** What is done to the column, as steps of such a run. */
  function AsSteps(did: seq<Doing>): seq<SaveProtocol.Step> {
    seq(|did|, i requires 0 <= i < |did| =>
      if did[i].Wrote? then SaveProtocol.Write(did[i].y, did[i].b)
      else SaveProtocol.Announce(Update(0, did[i].y, 0, did[i].b)))
  }

  /** A run with one more step. */
  lemma Go(r: Run, step: SaveProtocol.Step) returns (r': Run)
    requires Goes(r) && SaveProtocol.CanStep(Saving(), Now(r), step)
    requires SaveProtocol.WellFormed(Saving(), SaveProtocol.TakeStep(Saving(), Now(r), step))
    ensures Goes(r') && r'.states[0] == r.states[0] && |r'.steps| == |r.steps| + 1
    ensures Now(r') == SaveProtocol.TakeStep(Saving(), Now(r), step) && r'.states[|r'.steps| - 1] == Now(r)
    ensures Meanwhile(r'.steps) == Meanwhile(r.steps) + if step.Save? then [] else [step]
  {
    hide SaveProtocol.CanStep, SaveProtocol.TakeStep, SaveProtocol.WellFormed;
    var next := SaveProtocol.TakeStep(Saving(), Now(r), step);
    r' := Run(r.states + [next], r.steps + [step]);
    assert r'.steps[..|r.steps|] == r.steps && Meanwhile(r.steps) + [] == Meanwhile(r.steps);
    forall i | 0 <= i < |r'.steps|
      ensures SaveProtocol.CanStep(Saving(), r'.states[i], r'.steps[i])
      ensures r'.states[i + 1] == SaveProtocol.TakeStep(Saving(), r'.states[i], r'.steps[i])
    {
      if i < |r.steps| {
        assert r'.states[i] == r.states[i] && r'.states[i + 1] == r.states[i + 1] && r'.steps[i] == r.steps[i];
      }
    }
  }

  lemma WriteStep(s: SaveProtocol.State, i: int, b: Block)
    requires SaveProtocol.WellFormed(Saving(), s) && 0 <= i < 3
    ensures SaveProtocol.CanStep(Saving(), s, SaveProtocol.Write(i, b)) && |s.level| == 3
    ensures var s' := SaveProtocol.TakeStep(Saving(), s, SaveProtocol.Write(i, b));
            s' == s.(level := s.level[i := b]) && SaveProtocol.WellFormed(Saving(), s')
  {
    hide Inv, Append, Volume, Pack, Cell, Saving;
    ColumnCells();
  }

  lemma AnnounceStep(s: SaveProtocol.State, u: Update)
    requires SaveProtocol.WellFormed(Saving(), s) && Fits(COLUMN, u)
    ensures SaveProtocol.CanStep(Saving(), s, SaveProtocol.Announce(u))
    ensures Usable(s.ring) && |s.told| == 3 && 0 <= Cell(COLUMN, u) < 3
    ensures var s' := SaveProtocol.TakeStep(Saving(), s, SaveProtocol.Announce(u));
            && SaveProtocol.WellFormed(Saving(), s') && s'.level == s.level && s'.saver == s.saver
            && s'.told == s.told[Cell(COLUMN, u) := u.b] && s'.ring == Append(s.ring, u)
  {
    hide Append, Volume, Pack;
    ColumnCells();
    WriteKeepsInv(s.ring, s.trace, WAppend(u));
  }

  /** The first pass copies one more cell. */
  lemma CopyStep(s: SaveProtocol.State)
    requires SaveProtocol.WellFormed(Saving(), s) && s.saver.phase.Pass1? && |s.saver.planes.blocks| < 3
    requires |s.level| == 3 && s.level[|s.saver.planes.blocks|] < 256 && s.saver.flags == NoFlags
    ensures SaveProtocol.CanStep(Saving(), s, SaveProtocol.Save) && |s.told| == 3
    ensures var v, i := s.saver, |s.saver.planes.blocks|;
            var s' := SaveProtocol.TakeStep(Saving(), s, SaveProtocol.Save);
            && SaveProtocol.WellFormed(Saving(), s')
            && s' == s.(saver := v.(
                 planes := v.planes.(blocks := v.planes.blocks + [s.level[i]]),
                 seen := v.seen.(low := v.seen.low + [s.level[i]]),
                 blind := if s.level[i] != s.told[i] then v.blind + {i} else v.blind))
  {
    hide Inv, Append, Volume, Pack, Cell, Saving;
    ColumnCells();
  }

  /** The next pass, which is not needed, or the end of the last. */
  lemma TurnStep(s: SaveProtocol.State)
    requires SaveProtocol.WellFormed(Saving(), s) && SaveProtocol.InPass(s.saver.phase)
    requires |s.saver.planes.blocks| == 3 && s.saver.flags == NoFlags
    requires s.saver.planes == Planes(s.saver.planes.blocks, Absent, Absent, Absent)
    ensures SaveProtocol.CanStep(Saving(), s, SaveProtocol.Save)
    ensures var s' := SaveProtocol.TakeStep(Saving(), s, SaveProtocol.Save);
            && SaveProtocol.WellFormed(Saving(), s')
            && s' == s.(saver := s.saver.(phase := SaveProtocol.NextPass(s.saver.phase)))
  {
    hide Inv, Append, Volume, Pack, Cell, Saving;
    ColumnCells();
  }

  lemma ReadStep(s: SaveProtocol.State)
    requires SaveProtocol.WellFormed(Saving(), s) && s.saver.phase.Draining? && Readable(s.ring, s.saver.reader)
    ensures SaveProtocol.CanStep(Saving(), s, SaveProtocol.Save) && Usable(s.ring)
    ensures var s' := SaveProtocol.TakeStep(Saving(), s, SaveProtocol.Save);
            s' == s.(saver := SaveProtocol.DrainStep(s)) && SaveProtocol.WellFormed(Saving(), s')
  {
    hide Append, Volume, Pack, Cell, SaveProtocol.DrainStep, Readable;
  }

  lemma StartSave() returns (r: Run)
    ensures Goes(r) && r.steps == [] && Meanwhile(r.steps) == []
    ensures Now(r) == SaveProtocol.State(Cells(AIR, SAND, SAND), Cells(AIR, SAND, SAND), EmptyRing(), NOTHING,
                                         SaveProtocol.Begin(EmptyRing()))
    ensures Mark(EmptyRing()) == Reader(0, 1)
  {
    hide Inv, Append, Volume, Pack, Cell, Saving;
    EmptyRingInv();
    ColumnCells();
    r := Run([SaveProtocol.State(Cells(AIR, SAND, SAND), Cells(AIR, SAND, SAND), EmptyRing(), NOTHING,
                                  SaveProtocol.Begin(EmptyRing()))], []);
  }

  /** The sand falls, a step of `check_for_sand` at a time, while the saver makes its first
      pass. */
  lemma SavedWhileFalling() returns (r: Run)
    ensures Goes(r)
    ensures r.states[0].level == r.states[0].told == Cells(AIR, SAND, SAND)
    ensures r.states[0].saver == SaveProtocol.Begin(r.states[0].ring) && SaveProtocol.WellFormed(Saving(), r.states[0])
    ensures var s := Now(r);
            && s.level == s.told == Cells(SAND, SAND, AIR)
            && s.ring == Append(Append(EmptyRing(), DOWN), EMPTY)
            && s.saver.phase.Pass1? && s.saver.seen.low == Cells(SAND, AIR, SAND) && s.saver.blind == {1}
            && s.saver.planes == Planes(Cells(SAND, AIR, SAND), Absent, Absent, Absent)
            && s.saver.flags == NoFlags && s.saver.reader == Reader(0, 1) && s.saver.redo == []
    ensures Meanwhile(r.steps) == AsSteps(FALL)
  {
    hide SaveProtocol.WellFormed, SaveProtocol.IsRun, SaveProtocol.TakeStep, SaveProtocol.CanStep;
    hide Append, EmptyRing, Fits, Cell, Volume, Meanwhile;
    ColumnCells();
    r := StartSave();
    // new_y is 0, old_y is 1
    WriteStep(Now(r), 0, SAND);
    r := Go(r, SaveProtocol.Write(0, SAND));
    AnnounceStep(Now(r), DOWN);
    r := Go(r, SaveProtocol.Announce(DOWN));
    WriteStep(Now(r), 1, AIR);
    r := Go(r, SaveProtocol.Write(1, AIR));
    CopyStep(Now(r));
    r := Go(r, SaveProtocol.Save);
    CopyStep(Now(r));
    r := Go(r, SaveProtocol.Save);
    // new_y is 1, which is what was emptied, and old_y is 2
    WriteStep(Now(r), 1, SAND);
    r := Go(r, SaveProtocol.Write(1, SAND));
    CopyStep(Now(r));
    r := Go(r, SaveProtocol.Save);
    WriteStep(Now(r), 2, AIR);
    r := Go(r, SaveProtocol.Write(2, AIR));
    AnnounceStep(Now(r), EMPTY);
    r := Go(r, SaveProtocol.Announce(EMPTY));
    FallSteps();
  }

  lemma FallSteps()
    ensures AsSteps(FALL) == [
              SaveProtocol.Write(0, SAND), SaveProtocol.Announce(DOWN), SaveProtocol.Write(1, AIR),
              SaveProtocol.Write(1, SAND), SaveProtocol.Write(2, AIR), SaveProtocol.Announce(EMPTY)]
  {
  }

  lemma TwoEntries()
    ensures var r := Append(Append(EmptyRing(), DOWN), EMPTY);
            && Usable(r) && Readable(r, Reader(0, 1)) && Readable(r, Reader(1, 1)) && Readable(r, Reader(2, 1))
            && Read(r, Reader(0, 1)) == Got(DOWN, Reader(1, 1)) && Read(r, Reader(1, 1)) == Got(EMPTY, Reader(2, 1))
            && Read(r, Reader(2, 1)) == Drained
  {
  }

  /** No other pass is needed, and the queue has two entries. */
  lemma SaveGoesOn(r0: Run) returns (r: Run)
    requires Goes(r0)
    requires var s := Now(r0);
             && s.level == s.told == Cells(SAND, SAND, AIR)
             && s.ring == Append(Append(EmptyRing(), DOWN), EMPTY)
             && s.saver.phase.Pass1? && s.saver.planes == Planes(Cells(SAND, AIR, SAND), Absent, Absent, Absent)
             && s.saver.flags == NoFlags && s.saver.reader == Reader(0, 1) && s.saver.redo == []
    ensures Goes(r) && r.states[0] == r0.states[0]
    ensures var v, v0 := Now(r).saver, Now(r0).saver;
            && v.phase.Finished? && v.redo == [DOWN, EMPTY] && v.planes == v0.planes && v.blind == v0.blind
            && v.final == v.told == Cells(SAND, SAND, AIR)
    ensures |r.steps| > 0 && r.states[|r.steps| - 1].saver.phase.Draining?
    ensures Meanwhile(r.steps) == Meanwhile(r0.steps)
  {
    hide SaveProtocol.WellFormed, SaveProtocol.IsRun, SaveProtocol.TakeStep, SaveProtocol.CanStep;
    hide Append, EmptyRing, Read, Readable, Meanwhile;
    TwoEntries();
    r := r0;
    TurnStep(Now(r));
    r := Go(r, SaveProtocol.Save);
    TurnStep(Now(r));
    r := Go(r, SaveProtocol.Save);
    TurnStep(Now(r));
    r := Go(r, SaveProtocol.Save);
    TurnStep(Now(r));
    r := Go(r, SaveProtocol.Save);
    ReadStep(Now(r));
    r := Go(r, SaveProtocol.Save);
    ReadStep(Now(r));
    r := Go(r, SaveProtocol.Save);
    ReadStep(Now(r));
    r := Go(r, SaveProtocol.Save);
  }

  /** A save that loses sand: the saver copies while `check_for_sand` does what it does to the
      column and nothing else happens, nothing overflows, the map is what the queue says of it
      when the queue is drained, and the file has air where the map has sand.  The sand put back
      in the middle is what is never settled by an entry. */
  lemma SaveLosesSand() returns (states: seq<SaveProtocol.State>, steps: seq<SaveProtocol.Step>)
    ensures SaveProtocol.IsSave(Saving(), states, steps)
    ensures states[0].level == states[0].told == Cells(AIR, SAND, SAND)
    ensures var v := states[|steps|].saver;
            && v.final == v.told == Cells(SAND, SAND, AIR) && v.blind == {1}
            && WellSized(v.planes, 3) && AllFit(COLUMN, v.redo) && Volume(COLUMN) == 3
            && Replay(COLUMN, Load(v.planes), v.redo) != v.final
            && Replay(COLUMN, Load(v.planes), v.redo)[1] == AIR
    ensures Meanwhile(steps) == AsSteps(FALL)
    ensures Outstanding(SaveProtocol.Changes(Saving(), states, steps), 1)
  {
    hide SaveProtocol.WellFormed, SaveProtocol.IsRun, Replay, Append, EmptyRing, Load, Fits, Cell, Volume, Meanwhile;
    var r := SavedWhileFalling();
    r := SaveGoesOn(r);
    states, steps := r.states, r.steps;
    EmptyCellLoads(states[|steps|].saver.planes);
    MiddleOutstanding(states, steps);
  }

  lemma MiddleOutstanding(states: seq<SaveProtocol.State>, steps: seq<SaveProtocol.Step>)
    requires SaveProtocol.IsSave(Saving(), states, steps) && states[0].level == states[0].told
    requires |steps| > 0 && !states[|steps| - 1].saver.phase.Finished?
    requires var v := states[|steps|].saver; 1 in v.blind && v.redo == [DOWN, EMPTY]
    ensures Outstanding(SaveProtocol.Changes(Saving(), states, steps), 1)
  {
    hide SaveProtocol.IsRun, SaveProtocol.Changes, SaveProtocol.BlindRight, SaveProtocol.PlanesRight,
         SaveProtocol.OnSchedule, Replay, Inv, Outstanding, Volume, Cell;
    ColumnCells();
    SaveProtocol.OutstandingKept(Saving(), states, steps);
    SaveProtocol.FinishIsAMoment(Saving(), states, steps);
    var log := [DOWN, EMPTY];
    assert AllFit(COLUMN, log) && !Touches(COLUMN, log, 1);
  }

  lemma EmptyCellLoads(p: Planes)
    requires p == Planes(Cells(SAND, AIR, SAND), Absent, Absent, Absent)
    ensures Volume(COLUMN) == 3 && WellSized(p, 3) && AllFit(COLUMN, [DOWN, EMPTY])
    ensures Replay(COLUMN, Load(p), [DOWN, EMPTY])[1] == AIR
  {
    hide Replay, Pack, Volume, Fits, Cell;
    ColumnCells();
    var log := [DOWN, EMPTY];
    assert AllFit(COLUMN, log) && !Touches(COLUMN, log, 1);
    ReplayLeaves(COLUMN, Load(p), log, 1);
  }

  // ---- The client -----------------------------------------------------------------------

  function Plain(b: Block): Block { if b < 256 then b else AIR }

  /** A client that is shown every block as it is, as far as a byte goes. */
  function Showing(): LiveClient.Config { LiveClient.Config(COLUMN, Plain, false) }

  lemma ShowingFits()
    ensures LiveClient.FitsWidth(Showing())
  {
  }

  /** A run of the session with this client, so far. */
  datatype Showings = Showings(states: seq<LiveClient.State>, steps: seq<LiveClient.Step>)

  ghost predicate Shows(r: Showings) {
    |r.states| == |r.steps| + 1 && LiveClient.IsRun(Showing(), r.states, r.steps)
    && LiveClient.WellFormed(Showing(), r.states[|r.steps|])
  }

  ghost function Then(r: Showings): LiveClient.State
    requires Shows(r)
  {
    r.states[|r.steps|]
  }

  /** The steps of a run that are not the session's. */
  function Besides(steps: seq<LiveClient.Step>): seq<LiveClient.Step> {
    if steps == [] then []
    else
      var (front, last) := (Besides(steps[..|steps| - 1]), steps[|steps| - 1]);
      if last.Write? || last.Announce? || last.Edit? || last.Other? then front + [last] else front
  }

  function AsShown(did: seq<Doing>): seq<LiveClient.Step> {
    seq(|did|, i requires 0 <= i < |did| =>
      if did[i].Wrote? then LiveClient.Write(did[i].y, did[i].b)
      else LiveClient.Announce(Update(0, did[i].y, 0, did[i].b)))
  }

  lemma FallShown()
    ensures AsShown(FALL) == [
              LiveClient.Write(0, SAND), LiveClient.Announce(DOWN), LiveClient.Write(1, AIR),
              LiveClient.Write(1, SAND), LiveClient.Write(2, AIR), LiveClient.Announce(EMPTY)]
  {
  }

  lemma GoOn(r: Showings, step: LiveClient.Step) returns (r': Showings)
    requires Shows(r) && LiveClient.CanStep(Showing(), Then(r), step)
    requires LiveClient.WellFormed(Showing(), LiveClient.TakeStep(Showing(), Then(r), step))
    ensures Shows(r') && r'.states[0] == r.states[0]
    ensures Then(r') == LiveClient.TakeStep(Showing(), Then(r), step)
    ensures Besides(r'.steps) == Besides(r.steps)
              + if step.Write? || step.Announce? || step.Edit? || step.Other? then [step] else []
  {
    hide LiveClient.CanStep, LiveClient.TakeStep, LiveClient.WellFormed;
    var next := LiveClient.TakeStep(Showing(), Then(r), step);
    r' := Showings(r.states + [next], r.steps + [step]);
    assert r'.steps[..|r.steps|] == r.steps && Besides(r.steps) + [] == Besides(r.steps);
    forall i | 0 <= i < |r'.steps|
      ensures LiveClient.CanStep(Showing(), r'.states[i], r'.steps[i])
      ensures r'.states[i + 1] == LiveClient.TakeStep(Showing(), r'.states[i], r'.steps[i])
    {
      if i < |r.steps| {
        assert r'.states[i] == r.states[i] && r'.states[i + 1] == r.states[i + 1] && r'.steps[i] == r.steps[i];
      }
    }
  }

  lemma WriteShown(s: LiveClient.State, i: int, b: Block)
    requires LiveClient.WellFormed(Showing(), s) && 0 <= i < 3
    ensures LiveClient.CanStep(Showing(), s, LiveClient.Write(i, b)) && |s.level| == 3
    ensures var s' := LiveClient.TakeStep(Showing(), s, LiveClient.Write(i, b));
            s' == s.(level := s.level[i := b]) && LiveClient.WellFormed(Showing(), s')
  {
    hide Inv, Append, Volume, Pack, Cell, LiveClient.FitsWidth;
    ColumnCells();
  }

  lemma AnnounceShown(s: LiveClient.State, u: Update)
    requires LiveClient.WellFormed(Showing(), s) && Fits(COLUMN, u)
    ensures LiveClient.CanStep(Showing(), s, LiveClient.Announce(u))
    ensures Usable(s.ring) && |s.told| == 3 && 0 <= Cell(COLUMN, u) < 3
    ensures var s' := LiveClient.TakeStep(Showing(), s, LiveClient.Announce(u));
            && LiveClient.WellFormed(Showing(), s') && s'.level == s.level && s'.session == s.session
            && s'.told == s.told[Cell(COLUMN, u) := u.b] && s'.ring == Append(s.ring, u)
  {
    hide Append, Volume, Pack, LiveClient.FitsWidth;
    ColumnCells();
    WriteKeepsInv(s.ring, s.trace, WAppend(u));
  }

  /** One more byte is sent. */
  lemma CopyShown(s: LiveClient.State)
    requires LiveClient.WellFormed(Showing(), s) && s.session.phase.LowPass? && |s.session.low| < 3
    requires |s.level| == 3 && !s.session.needHigh && s.level[|s.session.low|] < 256
    ensures LiveClient.CanStep(Showing(), s, LiveClient.CopyCell) && |s.told| == 3
    ensures var v := s.session;
            var s' := LiveClient.TakeStep(Showing(), s, LiveClient.CopyCell);
            && LiveClient.WellFormed(Showing(), s') && s' == s.(session := s'.session)
            && s'.session.reader == v.reader && s'.session.reloadPending == v.reloadPending && !s'.session.needHigh
            && s'.session.phase.LowPass? && s'.session.low == v.low + [s.level[|v.low|]]
  {
    hide Inv, Append, Volume, Pack, Cell, LiveClient.FitsWidth, LiveClient.ForwardStep, LiveClient.Assemble,
         LiveClient.TickStep;
    ColumnCells();
    assert LiveClient.Shown(Showing(), s.level[|s.session.low|]) == s.level[|s.session.low|];
  }

  /** None needs a second byte, so the transfer is complete. */
  lemma SentShown(s: LiveClient.State)
    requires LiveClient.WellFormed(Showing(), s) && s.session.phase.LowPass? && |s.session.low| == 3
    requires !s.session.needHigh
    ensures LiveClient.CanStep(Showing(), s, LiveClient.CopyCell)
    ensures var v := s.session;
            var s' := LiveClient.TakeStep(Showing(), s, LiveClient.CopyCell);
            && LiveClient.WellFormed(Showing(), s')
            && s' == s.(session := v.(phase := LiveClient.Live, view := LiveClient.Assemble(v.low, [])))
  {
    hide Inv, Append, Volume, Pack, Cell, LiveClient.FitsWidth, LiveClient.ForwardStep, LiveClient.Assemble;
    ColumnCells();
  }

  lemma AssembledColumn()
    ensures LiveClient.Assemble([SAND, AIR, SAND], []) == Cells(SAND, AIR, SAND)
  {
  }

  lemma StartShown(s: LiveClient.State)
    requires LiveClient.WellFormed(Showing(), s) && s.session.phase.NoMap?
    ensures LiveClient.CanStep(Showing(), s, LiveClient.StartMap)
    ensures var s' := LiveClient.TakeStep(Showing(), s, LiveClient.StartMap);
            LiveClient.WellFormed(Showing(), s') && s' == s.(session := LiveClient.Start(s))
  {
    hide Inv, Append, Volume, Pack, Cell, LiveClient.FitsWidth, LiveClient.ForwardStep, LiveClient.Start;
  }

  lemma ForwardShown(s: LiveClient.State)
    requires LiveClient.WellFormed(Showing(), s) && s.session.phase.Live? && s.session.reloadPending == 0
    requires s.session.reader.lastId >= 0 && Readable(s.ring, s.session.reader)
    requires var r := Read(s.ring, s.session.reader);
             r.Got? && Fits(COLUMN, r.update) && r.update.b < 256 && |s.session.view| == 3
    ensures LiveClient.CanStep(Showing(), s, LiveClient.Forward)
    ensures var r := Read(s.ring, s.session.reader);
            var s' := LiveClient.TakeStep(Showing(), s, LiveClient.Forward);
            && 0 <= Cell(COLUMN, r.update) < 3 && LiveClient.WellFormed(Showing(), s')
            && s' == s.(session := s.session.(
                          reader := r.next, view := s.session.view[Cell(COLUMN, r.update) := r.update.b]))
  {
    hide Inv, Append, Volume, Pack, Read, Readable, LiveClient.FitsWidth;
    ColumnCells();
  }

  lemma StartShowing() returns (r: Showings)
    ensures Shows(r) && LiveClient.IsInitial(Showing(), r.states[0])
    ensures r.states[0].level == r.states[0].told == Cells(AIR, SAND, SAND)
    ensures var s := Then(r);
            && s.level == s.told == Cells(AIR, SAND, SAND) && s.ring == EmptyRing()
            && s.session.phase.LowPass? && s.session.reader == Reader(0, 1) && s.session.reloadPending == 0
            && s.session.low == [] && !s.session.needHigh
    ensures Besides(r.steps) == []
  {
    hide Inv, Append, Volume, Pack, Cell, LiveClient.FitsWidth;
    EmptyRingInv();
    ColumnCells();
    ShowingFits();
    var none := LiveClient.Session(LiveClient.NoMap, NoPosition, 0, [], [], false, [], 0, [], [], [], {});
    assert Besides([]) == [];
    r := Showings([LiveClient.State(Cells(AIR, SAND, SAND), Cells(AIR, SAND, SAND), EmptyRing(), NOTHING, none)], []);
    StartShown(Then(r));
    r := GoOn(r, LiveClient.StartMap);
  }

  /** The same moments as before, seen by a client. */
  lemma SentWhileFalling() returns (r: Showings)
    ensures Shows(r) && LiveClient.IsInitial(Showing(), r.states[0])
    ensures r.states[0].level == r.states[0].told == Cells(AIR, SAND, SAND)
    ensures var s := Then(r);
            && s.level == s.told == Cells(SAND, SAND, AIR)
            && s.ring == Append(Append(EmptyRing(), DOWN), EMPTY)
            && s.session.phase.Live? && s.session.reader == Reader(0, 1) && s.session.reloadPending == 0
            && s.session.view == Cells(SAND, AIR, SAND)
    ensures Besides(r.steps) == AsShown(FALL)
  {
    hide LiveClient.WellFormed, LiveClient.IsRun, LiveClient.TakeStep, LiveClient.CanStep, LiveClient.IsInitial;
    hide Append, EmptyRing, Fits, Cell, Volume, Besides;
    FallShown();
    ColumnCells();
    r := StartShowing();
    WriteShown(Then(r), 0, SAND);
    r := GoOn(r, LiveClient.Write(0, SAND));
    AnnounceShown(Then(r), DOWN);
    r := GoOn(r, LiveClient.Announce(DOWN));
    WriteShown(Then(r), 1, AIR);
    r := GoOn(r, LiveClient.Write(1, AIR));
    CopyShown(Then(r));
    r := GoOn(r, LiveClient.CopyCell);
    CopyShown(Then(r));
    r := GoOn(r, LiveClient.CopyCell);
    WriteShown(Then(r), 1, SAND);
    r := GoOn(r, LiveClient.Write(1, SAND));
    CopyShown(Then(r));
    r := GoOn(r, LiveClient.CopyCell);
    WriteShown(Then(r), 2, AIR);
    r := GoOn(r, LiveClient.Write(2, AIR));
    AnnounceShown(Then(r), EMPTY);
    r := GoOn(r, LiveClient.Announce(EMPTY));
    SentShown(Then(r));
    AssembledColumn();
    r := GoOn(r, LiveClient.CopyCell);
  }

  /** A client that never learns of the sand: it has read everything that is queued, and goes
      on showing air in its place. */
  lemma ClientMissesSand() returns (states: seq<LiveClient.State>, steps: seq<LiveClient.Step>)
    ensures LiveClient.IsRun(Showing(), states, steps) && LiveClient.IsInitial(Showing(), states[0])
    ensures states[0].level == states[0].told == Cells(AIR, SAND, SAND)
    ensures var s := states[|steps|];
            && s.session.phase.Live? && s.session.reloadPending == 0
            && Readable(s.ring, s.session.reader) && Read(s.ring, s.session.reader).Drained?
            && s.level == s.told == Cells(SAND, SAND, AIR) && s.session.view == Cells(SAND, AIR, AIR)
            && s.session.view != LiveClient.ShownMap(Showing(), s.level)
    ensures Besides(steps) == AsShown(FALL)
  {
    hide LiveClient.WellFormed, LiveClient.TakeStep, LiveClient.CanStep, LiveClient.IsInitial, LiveClient.IsRun;
    hide LiveClient.ShownMap, Append, EmptyRing, Read, Readable, Fits, Cell, Volume, Showing, Usable, Besides;
    TwoEntries();
    ColumnCells();
    var r := SentWhileFalling();
    ForwardShown(Then(r));
    r := GoOn(r, LiveClient.Forward);
    ForwardShown(Then(r));
    r := GoOn(r, LiveClient.Forward);
    states, steps := r.states, r.steps;
    MiddleShown();
  }

  lemma MiddleShown()
    ensures LiveClient.ShownMap(Showing(), Cells(SAND, SAND, AIR)) != Cells(SAND, AIR, AIR)
  {
    assert LiveClient.ShownMap(Showing(), Cells(SAND, SAND, AIR))[1] == SAND;
  }
}
