/** Bans of the rate limiter: how long they last, and who is caught in spite of a low rate. */
module AntiSpamBans {
  import opened AntiSpam

  /** No ban is in force when this event comes. */
  predicate Unbanned(s: State, ms: int) { s.bannedTil == 0 || ms / 1000 >= s.bannedTil }

  lemma BanStays(l: Limit, s: State, ms: int, til: int)
    requires l.count > 0 && Valid(l, s, ms) && til > 0 && ms / 1000 < til && s.bannedTil >= til
    ensures Refuses(l, s, ms) && After(l, s, ms).bannedTil >= til
  {
    hide Deadline, Cheating, Clears, Window;
  }

  lemma BanSet(l: Limit, s: State, ms: int)
    requires l.count > 0 && ms > 0 && Valid(l, s, ms) && Refuses(l, s, ms) && Unbanned(s, ms)
    ensures l.ban > 0 ==> After(l, s, ms).bannedTil >= ms / 1000 + l.ban
    ensures After(l, s, ms).bannedTil >= Deadline(l, s) / 1000
  {
    hide Deadline, Cheating, Clears, Window;
  }

  /** Whoever is refused is refused for as long as a ban lasts, and until the events counted so
      far would be through at the allowed rate. */
  lemma {:induction false} BanHolds(l: Limit, states: seq<State>, times: seq<int>, refused: seq<bool>, i: nat, j: nat)
    requires IsRun(l, states, times, refused) && i < j < |times| && refused[i] && Unbanned(states[i], times[i])
    ensures l.ban > 0 && times[j] / 1000 < times[i] / 1000 + l.ban ==> refused[j]
    ensures times[j] / 1000 < Deadline(l, states[i]) / 1000 ==> refused[j]
  {
    hide Deadline, After, Refuses, Valid;
    BanSet(l, states[i], times[i]);
    if l.ban > 0 && times[j] / 1000 < times[i] / 1000 + l.ban {
      BanGoesOn(l, states, times, refused, i + 1, j, times[i] / 1000 + l.ban);
    }
    if times[j] / 1000 < Deadline(l, states[i]) / 1000 {
      BanGoesOn(l, states, times, refused, i + 1, j, Deadline(l, states[i]) / 1000);
    }
  }

  lemma {:induction false} BanGoesOn(l: Limit, states: seq<State>, times: seq<int>, refused: seq<bool>, i: nat, j: nat,
                                     til: int)
    requires IsRun(l, states, times, refused) && i <= j < |times|
    requires states[i].bannedTil >= til > times[j] / 1000
    ensures refused[j]
    decreases j - i
  {
    hide Deadline, After, Refuses, Valid;
    assert times[j] > 0 && times[i] <= times[j];
    BanStays(l, states[i], times[i], til);
    if i < j { BanGoesOn(l, states, times, refused, i + 1, j, til); }
  }

  lemma BanWithin(l: Limit, s: State, ms: int, til: int)
    requires l.count > 0 && Valid(l, s, ms) && s.bannedTil <= til && til >= 0
    requires Refuses(l, s, ms) ==> ms / 1000 + l.ban <= til && Deadline(l, s) / 1000 <= til
    ensures After(l, s, ms).bannedTil <= til
  {
    hide Deadline, Cheating, Clears, Window;
  }

  /** A ban lasts no longer than that after any refusal. */
  lemma {:induction false} BansEnd(l: Limit, states: seq<State>, times: seq<int>, refused: seq<bool>, j: nat, til: int)
    requires IsRun(l, states, times, refused) && j <= |times| && til >= 0
    requires forall k :: 0 <= k < j && refused[k] ==> times[k] / 1000 + l.ban <= til
    requires Deadline(l, states[j]) / 1000 <= til
    ensures states[j].bannedTil <= til
    decreases j
  {
    hide Deadline, After, Refuses, Valid, Spacing;
    if j > 0 {
      RunStarted(l, states, times, refused, j - 1);
      DeadlineGrows(l, states[j - 1], times[j - 1]);
      SpacingNotNegative(l);
      BansEnd(l, states, times, refused, j - 1, til);
      BanWithin(l, states[j - 1], times[j - 1], til);
    }
  }

  lemma SpacingNotNegative(l: Limit)
    requires l.count > 0
    ensures Spacing(l) >= 0
  {
  }

  /** Whoever waits until nothing is outstanding and every ban is over, and then keeps to the
      allowed rate, is not refused any more. */
  lemma {:induction false} Forgiven(l: Limit, states: seq<State>, times: seq<int>, refused: seq<bool>, i: nat, j: nat)
    requires IsRun(l, states, times, refused) && i <= j < |times|
    requires Deadline(l, states[i]) <= times[i]
    requires forall k :: 0 <= k < i && refused[k] ==> times[k] / 1000 + l.ban <= times[i] / 1000
    requires forall k :: i <= k < j ==> times[k + 1] - times[k] >= Spacing(l)
    ensures !refused[j] && states[j + 1].bannedTil == 0 && Deadline(l, states[j]) <= times[j]
    ensures !states[j + 1].banFlag
    decreases j
  {
    hide Spacing, Valid, Deadline;
    RunStarted(l, states, times, refused, j);
    if i == j {
      BansEnd(l, states, times, refused, i, times[i] / 1000);
    } else {
      Forgiven(l, states, times, refused, i, j - 1);
      RunStarted(l, states, times, refused, j - 1);
      DeadlineGrows(l, states[j - 1], times[j - 1]);
      assert times[j - 1 + 1] - times[j - 1] >= Spacing(l);
    }
  }

  // ---- Counting -----------------------------------------------------------------------------

  /** What the bounds on accepted events count. */
  lemma {:induction false} AcceptedAre(refused: seq<bool>, i: nat, j: nat)
    requires i <= j <= |refused|
    ensures AcceptedIn(refused, i, j) == |set k | i <= k < j && !refused[k]|
    decreases j - i
  {
    if i < j {
      AcceptedAre(refused, i, j - 1);
      OneMoreAccepted(refused, i, j);
    }
  }

  lemma OneMoreAccepted(refused: seq<bool>, i: nat, j: nat)
    requires i < j <= |refused|
    ensures |set k | i <= k < j && !refused[k]|
         == |set k | i <= k < j - 1 && !refused[k]| + if refused[j - 1] then 0 else 1
  {
    var (before, now) := (set k | i <= k < j - 1 && !refused[k], set k | i <= k < j && !refused[k]);
    if refused[j - 1] {
      assert now == before;
    } else {
      assert now == before + {j - 1} && j - 1 !in before;
    }
  }

  // ---- Just above the limit -----------------------------------------------------------------

  /** The event comes when the caller is four events or more ahead of the allowed rate. */
  predicate FarAhead(l: Limit, s: State, ms: int)
    requires l.count > 0
  {
    s.msStart != 0 && (Deadline(l, s) - ms) * l.count >= 4 * Window(l)
  }

  /** Every such event brings the caller on: the count goes up, or else a full count is carried
      over and remembered. */
  lemma AheadCounts(l: Limit, s: State, ms: int)
    requires l.count > 0 && l.seconds > 0 && Valid(l, s, ms) && FarAhead(l, s, ms) && s.events <= l.count
    ensures var s' := After(l, s, ms);
            && 1 <= s'.events <= l.count && s'.events + l.count * s'.cheater == s.events + l.count * s.cheater + 1
            && (s'.cheater >= 3 ==> Refuses(l, s, ms))
  {
    hide Deadline, BanAfter;
    FourTimes((Deadline(l, s) - ms) * l.count, Window(l));
    if Deadline(l, s) <= ms { NotAhead(Deadline(l, s) - ms, l.count); }
  }

  lemma FourTimes(a: int, n: int)
    requires n > 0
    ensures a / n > 3 <==> a >= 4 * n
  {
    if a / n > 3 { assert (a / n - 4) * n >= 0; }
    if a / n <= 3 { assert (3 - a / n) * n >= 0; }
    assert a == a / n * n + a % n;
  }

  lemma NotAhead(a: int, n: int)
    requires a <= 0 && n > 0
    ensures a * n <= 0
  {
  }

  lemma {:induction false} CountsInRange(l: Limit, states: seq<State>, times: seq<int>, refused: seq<bool>, i: nat)
    requires IsRun(l, states, times, refused) && i < |states|
    ensures 0 <= states[i].events <= l.count && states[i].cheater >= 0
    decreases i
  {
    hide Deadline, BanAfter, Refuses, Overage;
    if i > 0 { CountsInRange(l, states, times, refused, i - 1); }
  }

  lemma {:induction false} AheadAdds(l: Limit, states: seq<State>, times: seq<int>, refused: seq<bool>, i: nat, n: nat)
    requires IsRun(l, states, times, refused) && i + n <= |times|
    requires forall k :: i <= k < i + n ==> FarAhead(l, states[k], times[k])
    ensures var (s, s') := (states[i], states[i + n]);
            s'.events + l.count * s'.cheater == s.events + l.count * s.cheater + n
    decreases n
  {
    hide Deadline, After, Refuses, Valid, FarAhead;
    if n > 0 {
      AheadAdds(l, states, times, refused, i, n - 1);
      CountsInRange(l, states, times, refused, i + n - 1);
      AheadCounts(l, states[i + n - 1], times[i + n - 1]);
    }
  }

  /** The window forgives a burst, but not a rate that stays just above the limit: of four times
      the count of events in a row, each four events or more ahead, the last is refused. */
  lemma StayingAheadIsCaught(l: Limit, states: seq<State>, times: seq<int>, refused: seq<bool>, i: nat, j: nat)
    requires IsRun(l, states, times, refused) && i <= j < |times| && j + 1 - i >= 4 * l.count
    requires forall k :: i <= k <= j ==> FarAhead(l, states[k], times[k])
    ensures refused[j]
  {
    hide Deadline, After, Refuses, Valid, FarAhead;
    AheadAdds(l, states, times, refused, i, j + 1 - i);
    CountsInRange(l, states, times, refused, i);
    CountsInRange(l, states, times, refused, j);
    CountsInRange(l, states, times, refused, j + 1);
    AheadCounts(l, states[j], times[j]);
    FullCounts(states[i].cheater, states[i].events, states[j + 1].cheater, states[j + 1].events, l.count, j + 1 - i);
  }

  lemma FullCounts(c0: int, e0: int, c1: int, e1: int, n: int, added: int)
    requires n > 0 && c0 >= 0 && e0 >= 0 && e1 <= n && added >= 4 * n && e1 + n * c1 == e0 + n * c0 + added
    ensures c1 >= 3
  {
    MulAtLeast(n, c0, 0);
    if c1 < 3 { MulAtLeast(n, 2, c1); }
  }

  /** How often, since nothing was last outstanding, a full count has been reached by an event
      that was four or more ahead. */
  ghost function Offences(l: Limit, states: seq<State>, times: seq<int>, j: nat): nat
    requires l.count > 0 && j <= |times| < |states|
  {
    if j == 0 then 0
    else
      var (s, ms) := (states[j - 1], times[j - 1]);
      if s.msStart == 0 || Deadline(l, s) <= ms then 0
      else Offences(l, states, times, j - 1) + if s.events >= l.count && FarAhead(l, s, ms) then 1 else 0
  }

  lemma {:induction false} OffencesKept(l: Limit, states: seq<State>, times: seq<int>, refused: seq<bool>, j: nat)
    requires IsRun(l, states, times, refused) && j <= |times|
    ensures states[j].cheater == Offences(l, states, times, j)
    decreases j
  {
    hide Deadline, BanAfter, Refuses;
    if j > 0 {
      OffencesKept(l, states, times, refused, j - 1);
      var (s, ms) := (states[j - 1], times[j - 1]);
      FarAheadIs(l, s, ms);
    }
  }

  lemma FarAheadIs(l: Limit, s: State, ms: int)
    requires l.count > 0 && l.seconds > 0
    ensures FarAhead(l, s, ms) <==> s.msStart != 0 && Overage(l, s, ms) > 3
  {
    hide Deadline;
    FourTimes((Deadline(l, s) - ms) * l.count, Window(l));
  }

  /** Exactly when an event is refused while no ban is in force: a whole window ahead, or ahead
      at all with the third offence. */
  lemma RefusedExactly(l: Limit, states: seq<State>, times: seq<int>, refused: seq<bool>, j: nat)
    requires IsRun(l, states, times, refused) && j < |times| && Unbanned(states[j], times[j])
    ensures refused[j] <==>
              var ahead := states[j].msStart + states[j].events * (l.seconds * 1000) / l.count - times[j];
              && states[j].msStart != 0 && ahead > 0
              && (ahead >= l.seconds * 1000 || Offences(l, states, times, j + 1) >= 3)
  {
    hide BanAfter, After;
    OffencesKept(l, states, times, refused, j);
    FarAheadIs(l, states[j], times[j]);
  }
}
