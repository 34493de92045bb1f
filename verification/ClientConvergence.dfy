/** What a client shows in the end, whatever is edited meanwhile. */
module ClientConvergence {
  import opened World
  import opened BlockConvert
  import opened LiveClient
  import opened MapTransfer
  import Ring

  /** A run after which the session is live, with no reload pending. */
  ghost predicate EndsLive(c: Config, states: seq<State>, steps: seq<Step>) {
    && IsRun(c, states, steps) && IsInitial(c, states[0])
    && var v := states[|steps|].session; v.phase.Live? && v.reloadPending == 0
  }

  /** It can look at the queue; if there is nothing new, its client has caught up. */
  lemma LiveInTheEnd(c: Config, states: seq<State>, steps: seq<Step>)
    requires EndsLive(c, states, steps)
    ensures var s := states[|steps|];
            && IsLive(c, s) && Accounted(c, s) && |s.level| == |s.told| == |s.session.view| == Volume(c.dims)
            && Ring.Readable(s.ring, s.session.reader)
            && (Ring.Read(s.ring, s.session.reader).Drained? ==> s.session.view == CaughtUp(c, s))
  {
    hide FitsWidth, BlindRight, BytesRight, CaughtUp, SessionInv;
    RunKeeps(c, states, steps);
    var s := states[|steps|];
    LiveMeans(c, s);
    LiveIsSound(c, s);
    Ring.ReadIsExact(s.ring, s.trace, s.session.reader);
  }

  /** For every interleaving, and at every moment while the client is live: what it shows, with
      the entries that are still unread, is exactly the shared map, although the snapshot it
      started from may never have existed, if and only if each cell looks like what the queue
      has last said of it since the transfer began, or has not been named since and was sent
      right. */
  lemma ViewConverges(c: Config, states: seq<State>, steps: seq<Step>)
    requires EndsLive(c, states, steps)
    ensures var s := states[|steps|];
            && IsLive(c, s) && Accounted(c, s) && |s.level| == Volume(c.dims)
            && (CaughtUp(c, s) == ShownMap(c, s.level) <==> Faithful(c, s))
  {
    hide IsLive, CaughtUp, CellFaithful, BlindRight, BytesRight;
    LiveInTheEnd(c, states, steps);
    var s := states[|steps|];
    forall i | 0 <= i < |s.level| ensures CaughtUp(c, s)[i] == Shown(c, s.level[i]) <==> CellFaithful(c, s, i) {
      CellExact(c, s, i);
    }
  }

  lemma CellExact(c: Config, s: State, i: nat)
    requires IsLive(c, s) && i < |s.level| == Volume(c.dims)
    ensures Accounted(c, s)
    ensures CaughtUp(c, s)[i] == Shown(c, s.level[i]) <==> CellFaithful(c, s, i)
  {
    hide IsLive, CaughtUp, FitsWidth, BlindRight, BytesRight, SentRight;
    LiveIsSound(c, s);
    ViewCell(c, s, i);
    AssembledRight(c, s, i, s.level[i]);
  }

  /** Every reachable state: there is no map, or it is being sent, or a reload is pending, or
      the client shows, with the entries that are still unread, what the queue says of the map,
      if no cell that was copied while it was silently changed has gone unnamed. */
  lemma QueueIsShown(c: Config, states: seq<State>, steps: seq<Step>)
    requires IsRun(c, states, steps) && IsInitial(c, states[0])
    ensures var s := states[|steps|];
            || !s.session.phase.Live? || s.session.reloadPending > 0
            || (IsLive(c, s) && Accounted(c, s) && (NoneSlips(c, s) ==> CaughtUp(c, s) == ShownMap(c, s.told)))
  {
    hide IsLive, CaughtUp, BlindRight, BytesRight;
    var s := states[|steps|];
    if s.session.phase.Live? && s.session.reloadPending == 0 {
      LiveInTheEnd(c, states, steps);
      if NoneSlips(c, s) {
        forall i | 0 <= i < |s.told| ensures CaughtUp(c, s)[i] == Shown(c, s.told[i]) {
          SlipsNot(c, s, i);
        }
      }
    }
  }

  lemma SlipsNot(c: Config, s: State, i: nat)
    requires IsLive(c, s) && Accounted(c, s) && i < Volume(c.dims) && NoneSlips(c, s)
    ensures CaughtUp(c, s)[i] == Shown(c, s.told[i])
  {
    hide IsLive, CaughtUp, BlindRight, BytesRight, Named;
    TransferSynchronises(c, s, i);
  }

  // ---- Conditions on the steps ------------------------------------------------------------

  /** An entry that says what its cell does not hold leaves the cell silently changed. */
  function ChangeOf(c: Config, s: State, step: Step): Change
    requires |s.level| == Volume(c.dims) && (step.Edit? || step.Announce? ==> Fits(c.dims, step.u))
  {
    match step
    case Edit(u) => Settled(Cell(c.dims, u))
    case Write(i, b) => Silent(i)
    case Announce(u) =>
      if s.level[Cell(c.dims, u)] == u.b then Settled(Cell(c.dims, u)) else Silent(Cell(c.dims, u))
    case _ => Neither
  }

  ghost function Changes(c: Config, states: seq<State>, steps: seq<Step>): (r: seq<Change>)
    requires IsRun(c, states, steps)
    ensures |r| == |steps|
  {
    if steps == [] then []
    else
      var n := |steps| - 1;
      Changes(c, states[..n + 1], steps[..n]) + [ChangeOf(c, states[n], steps[n])]
  }

  /** Since the map was begun: whatever is amiss with a cell goes back to a silent change that
      is still outstanding. */
  ghost predicate AllOutstanding(c: Config, s: State, changes: seq<Change>) {
    && |s.level| == |s.told| == Volume(c.dims)
    && (forall i :: 0 <= i < |s.level| && s.level[i] != s.told[i] ==> Outstanding(changes, i))
    && (!s.session.phase.NoMap? ==>
          && s.session.startAt <= |s.trace.hist| && AllFit(c.dims, Since(s))
          && (forall i :: i in s.session.blind && 0 <= i < |s.level| && !Touches(c.dims, Since(s), i)
                ==> Outstanding(changes, i)))
  }

  lemma OutstandingStays(c: Config, s: State, step: Step, changes: seq<Change>)
    requires CanStep(c, s, step) && AllOutstanding(c, s, changes)
    ensures AllOutstanding(c, TakeStep(c, s, step), changes + [ChangeOf(c, s, step)])
  {
    hide Touches, Outstanding, FitsWidth, Assemble;
    var s', last := TakeStep(c, s, step), ChangeOf(c, s, step);
    if !s.session.phase.NoMap? {
      if step.Edit? || step.Announce? {
        assert Since(s') == Since(s) + [step.u];
        TouchesMore(c.dims, Since(s), step.u);
      } else if s'.session.startAt == s.session.startAt {
        assert Since(s') == Since(s);
      }
    }
    forall i { OutstandingMore(changes, last, i); }
  }

  lemma {:induction false} OutstandingKept(c: Config, states: seq<State>, steps: seq<Step>)
    requires IsRun(c, states, steps) && IsInitial(c, states[0]) && states[0].level == states[0].told
    ensures AllOutstanding(c, states[|steps|], Changes(c, states, steps))
    decreases |steps|
  {
    hide AllOutstanding;
    if |steps| == 0 {
      assert AllOutstanding(c, states[0], []) by { BeginsClean(c, states[0]); }
    } else {
      var n := |steps| - 1;
      OutstandingKept(c, states[..n + 1], steps[..n]);
      assert CanStep(c, states[n], steps[n]) && states[n + 1] == TakeStep(c, states[n], steps[n]);
      OutstandingStays(c, states[n], steps[n], Changes(c, states[..n + 1], steps[..n]));
    }
  }

  lemma BeginsClean(c: Config, s: State)
    requires IsInitial(c, s) && s.level == s.told
    ensures AllOutstanding(c, s, [])
  {
  }

  /** A condition on the steps alone: at every moment while the client is live, what it shows,
      with the entries that are still unread, is the shared map, converted for it, if nothing
      was silently changed to begin with and each silent write has been followed by a locked
      edit of its cell, or by an entry that says what the cell holds. */
  lemma SettledInStep(c: Config, states: seq<State>, steps: seq<Step>)
    requires EndsLive(c, states, steps) && states[0].level == states[0].told
    requires forall i :: 0 <= i < Volume(c.dims) ==> !Outstanding(Changes(c, states, steps), i)
    ensures var s := states[|steps|]; IsLive(c, s) && CaughtUp(c, s) == ShownMap(c, s.level)
  {
    hide CaughtUp, ShownMap, Outstanding, BlindRight, BytesRight;
    var s := states[|steps|];
    OutstandingKept(c, states, steps);
    QueueIsShown(c, states, steps);
    assert NoneSlips(c, s);
    assert s.level == s.told;
  }

  /** Where every edit is one locked step, there are no silent changes at all. */
  lemma {:induction false} LockedEditsOnly(c: Config, states: seq<State>, steps: seq<Step>)
    requires IsRun(c, states, steps) && IsInitial(c, states[0]) && states[0].level == states[0].told
    requires forall i :: 0 <= i < |steps| ==> !steps[i].Write? && !steps[i].Announce?
    ensures var (v0, s) := (states[0].session, states[|steps|]);
            s.level == s.told && (s.session.blind == {} || (s.session.phase.NoMap? && s.session.blind == v0.blind))
    decreases |steps|
  {
    hide IsInitial, CanStep, TakeStep;
    if |steps| == 0 {
      assert states[0].session.phase.NoMap? by { InitialIsEmpty(c, states[0]); }
    } else {
      var n := |steps| - 1;
      LockedEditsOnly(c, states[..n + 1], steps[..n]);
      assert states[n + 1] == TakeStep(c, states[n], steps[n]) && CanStep(c, states[n], steps[n]);
      LockedStep(c, states[n], steps[n]);
    }
  }

  lemma InitialIsEmpty(c: Config, s: State)
    requires IsInitial(c, s)
    ensures s.session.phase.NoMap?
  {
  }

  lemma LockedStep(c: Config, s: State, step: Step)
    requires CanStep(c, s, step) && !step.Write? && !step.Announce? && s.level == s.told
    ensures TakeStep(c, s, step).level == TakeStep(c, s, step).told
    ensures var v' := TakeStep(c, s, step).session;
            v'.blind == {} || (v'.blind == s.session.blind && (s.session.phase.NoMap? ==> v'.phase.NoMap?))
  {
    hide FitsWidth;
  }

  /** So a live client is in step with the map at every moment. */
  lemma LockedInStep(c: Config, states: seq<State>, steps: seq<Step>)
    requires EndsLive(c, states, steps) && states[0].level == states[0].told
    requires forall i :: 0 <= i < |steps| ==> !steps[i].Write? && !steps[i].Announce?
    ensures var s := states[|steps|]; IsLive(c, s) && CaughtUp(c, s) == ShownMap(c, s.level)
  {
    hide CaughtUp, IsLive, ShownMap, IsInitial, Accounted;
    LockedEditsOnly(c, states, steps);
    QueueIsShown(c, states, steps);
    assert NoneSlips(c, states[|steps|]);
  }

  /** What the conversion of blocks promises is enough. */
  lemma ConversionFits(d: Dims, client: Client)
    requires Complete(client) && LimitsFit(client)
    ensures FitsWidth(ConfigFor(d, client))
  {
    hide Convert;
    forall b: Block ensures Shown(ConfigFor(d, client), b) < if client.extendedBlocks then CPELIMIT else 256 {
      ConvertFits(client, b);
    }
  }

  /** The same, block by block.  A cell of the client's map, with the entries that are still
      unread, is the shared one, converted for it, exactly if it is faithful; and it is, if it
      was not copied while it was silently changed, or has been named since, and is not silently
      changed now.  The run may start from any map and any queue that makes sense. */
  lemma ClientConverges(d: Dims, client: Client, states: seq<State>, steps: seq<Step>, x: int, y: int, z: int)
    requires Complete(client) && LimitsFit(client)
    requires IsRun(ConfigFor(d, client), states, steps)
    requires var s := states[0];
             s.session.phase.NoMap? && |s.level| == |s.told| == Volume(d) && Ring.Inv(s.ring, s.trace)
    requires var v := states[|steps|].session; v.phase.Live? && v.reloadPending == 0
    requires Inside(d, x, y, z)
    ensures var (s, c, i) := (states[|steps|], ConfigFor(d, client), Pack(d, x, y, z));
            && IsLive(c, s) && Accounted(c, s) && |s.session.view| == |s.level| == |s.told| == Volume(d)
            && (CaughtUp(c, s)[i] == Convert(client, s.level[i]) <==> CellFaithful(c, s, i))
            && ((i !in s.session.blind || Named(c, s, i)) && s.level[i] == s.told[i] ==>
                  CaughtUp(c, s)[i] == Convert(client, s.level[i]))
            && Ring.Readable(s.ring, s.session.reader)
            && (Ring.Read(s.ring, s.session.reader).Drained? ==> s.session.view == CaughtUp(c, s))
  {
    hide Convert, Ring.Inv, Ring.Read, Ring.Readable, BlindRight, BytesRight, IsLive, CaughtUp, Named, CellFaithful;
    ConversionFits(d, client);
    var (s, c, i) := (states[|steps|], ConfigFor(d, client), Pack(d, x, y, z));
    LiveInTheEnd(c, states, steps);
    CellExact(c, s, i);
    TransferSynchronises(c, s, i);
  }
}
