/** `add_antispam_event`: a limit of so many events in so many seconds that forgives
    a burst after a pause. */
module AntiSpam {
  import opened World

  /** Limits of one kind of event: `count` in `seconds`, and the ban for more than that. */
  datatype Limit = Limit(count: int, seconds: nat, ban: int)

  datatype State = State(msStart: int, bannedTil: int, events: int, cheater: int, banFlag: bool)

  const Fresh := State(0, 0, 0, 0, false)

  function Window(l: Limit): int { l.seconds * 1000 }

  /** When the events counted so far would be through at the allowed rate. */
  function Deadline(l: Limit, s: State): int
    requires l.count > 0
  {
    s.msStart + s.events * Window(l) / l.count
  }

  /** Counts are not negative, and never start in the future if there is no window. */
  predicate Valid(l: Limit, s: State, ms: int) {
    s.events >= 0 && s.msStart >= 0 && (l.seconds == 0 ==> s.msStart <= ms)
  }

  predicate StillBanned(s: State, ms: int) { s.bannedTil != 0 && ms / 1000 < s.bannedTil }

  /** Nothing is outstanding. */
  predicate Clears(l: Limit, s: State, ms: int)
    requires l.count > 0
  {
    s.msStart == 0 || Deadline(l, s) <= ms
  }

  /** How many events the deadline is ahead by. */
  function Overage(l: Limit, s: State, ms: int): int
    requires l.count > 0 && l.seconds > 0
  {
    (Deadline(l, s) - ms) * l.count / Window(l)
  }

  class Counter {
    var msStart: int
    var bannedTil: int
    var events: int
    var cheater: int
    var banFlag: bool

    function View(): State
      reads this
    {
      State(msStart, bannedTil, events, cheater, banFlag)
    }

    constructor ()
      ensures View() == Fresh
    {
      msStart, bannedTil, events, cheater, banFlag := 0, 0, 0, 0, false;
    }

    /** The answer is whether the event comes too soon.  Trusted users are not counted. */
    method AddEvent(l: Limit, ms: int, trusted: bool) returns (refused: bool)
      requires ms > 0 && Valid(l, View(), ms)
      modifies this
      ensures l.count <= 0 || trusted ==> !refused && View() == old(View())
      ensures l.count > 0 && !trusted ==>
                && Valid(l, View(), ms)
                && refused == Refuses(l, old(View()), ms) && View() == After(l, old(View()), ms)
    {
      if l.count <= 0 { return false; }
      if trusted { return false; }
      refused := false;
      var seconds := ms / 1000;
      if bannedTil != 0 {
        if seconds >= bannedTil { bannedTil := 0; } else { refused := true; }
      }
      var deadline := msStart + events * (l.seconds * 1000) / l.count;
      if msStart == 0 || deadline <= ms {
        msStart, events, cheater := ms, 1, 0;
        if !refused { banFlag := false; }
        return;
      }
      NoWindowClears(l, State(msStart, 0, events, 0, false), ms);
      if events >= l.count {
        events := events - l.count;
        msStart := msStart + l.seconds * 1000;
        if (deadline - ms) * l.count / (l.seconds * 1000) > 3 { cheater := cheater + 1; }
      }
      events := events + 1;
      if deadline < ms + l.seconds * 1000 && cheater < 3 { return; }
      if bannedTil == 0 && l.ban > 0 { bannedTil := seconds + l.ban; }
      if bannedTil == 0 || bannedTil < deadline / 1000 { bannedTil := deadline / 1000; }
      refused := true;
    }
  }

  lemma NoWindowClears(l: Limit, s: State, ms: int)
    requires l.count > 0 && Valid(l, s, ms)
    ensures l.seconds == 0 ==> Clears(l, s, ms)
  {
    if l.seconds == 0 { assert s.events * Window(l) == 0; }
  }

  /** The cheater count once this event has been counted. */
  function Cheating(l: Limit, s: State, ms: int): int
    requires l.count > 0 && l.seconds > 0
  {
    if s.events >= l.count && Overage(l, s, ms) > 3 then s.cheater + 1 else s.cheater
  }

  predicate Refuses(l: Limit, s: State, ms: int)
    requires l.count > 0 && Valid(l, s, ms)
  {
    || StillBanned(s, ms)
    || (!Clears(l, s, ms)
        && (NoWindowClears(l, s, ms); Deadline(l, s) >= ms + Window(l) || Cheating(l, s, ms) >= 3))
  }

  function BanAfter(l: Limit, s: State, ms: int): int
    requires l.count > 0 && Valid(l, s, ms)
  {
    var kept := if StillBanned(s, ms) then s.bannedTil else 0;
    if Clears(l, s, ms) then kept
    else
      NoWindowClears(l, s, ms);
      if Deadline(l, s) < ms + Window(l) && Cheating(l, s, ms) < 3 then kept
      else
        var til := if kept == 0 && l.ban > 0 then ms / 1000 + l.ban else kept;
        if til == 0 || til < Deadline(l, s) / 1000 then Deadline(l, s) / 1000 else til
  }

  function After(l: Limit, s: State, ms: int): State
    requires l.count > 0 && Valid(l, s, ms)
  {
    if Clears(l, s, ms) then
      State(ms, BanAfter(l, s, ms), 1, 0, s.banFlag && StillBanned(s, ms))
    else
      NoWindowClears(l, s, ms);
      var carried := s.events >= l.count;
      State(if carried then s.msStart + Window(l) else s.msStart, BanAfter(l, s, ms),
            (if carried then s.events - l.count else s.events) + 1, Cheating(l, s, ms), s.banFlag)
  }

  // ---- Whole runs -----------------------------------------------------------------------

  /** Events at these times, which never go back, and the answers to them. */
  ghost predicate IsRun(l: Limit, states: seq<State>, times: seq<int>, refused: seq<bool>) {
    && l.count > 0 && l.seconds > 0
    && |states| == |times| + 1 && |refused| == |times|
    && states[0] == Fresh
    && (forall i :: 0 <= i < |times| ==> times[i] > 0)
    && (forall i, j :: 0 <= i <= j < |times| ==> times[i] <= times[j])
    && (forall i :: 0 <= i < |times| ==>
          && Valid(l, states[i], times[i])
          && refused[i] == Refuses(l, states[i], times[i]) && states[i + 1] == After(l, states[i], times[i]))
  }

  /** The time one event takes at the allowed rate. */
  function Spacing(l: Limit): int
    requires l.count > 0
  {
    Window(l) / l.count
  }

  predicate Started(s: State) { s.msStart >= 0 && s.events >= 0 && (s.msStart == 0 ==> s.events == 0) }

  lemma QuotientsAdd(a: int, b: int, n: int)
    requires n > 0
    ensures (a + b) / n >= a / n + b / n
    ensures (a - n * b) / n == a / n - b
  {
    DivideUniquely((a - n * b) / n, (a - n * b) % n, a / n - b, a % n, n);
    var q := a / n + b / n;
    assert a + b == q * n + (a % n + b % n);
    if a % n + b % n < n { DivideUniquely((a + b) / n, (a + b) % n, q, a % n + b % n, n); }
    else { DivideUniquely((a + b) / n, (a + b) % n, q + 1, a % n + b % n - n, n); }
  }

  /** Every event, refused or not, moves the deadline on by its spacing at least; and the
      deadline is never earlier than an event just counted allows. */
  lemma DeadlineGrows(l: Limit, s: State, ms: int)
    requires l.count > 0 && l.seconds > 0 && ms > 0 && Valid(l, s, ms) && Started(s)
    ensures Started(After(l, s, ms))
    ensures Deadline(l, After(l, s, ms)) >= Deadline(l, s) + Spacing(l)
    ensures Deadline(l, After(l, s, ms)) >= ms + Spacing(l)
    ensures Clears(l, s, ms) ==> Deadline(l, After(l, s, ms)) == ms + Spacing(l)
  {
    hide BanAfter, Cheating;
    var t, n, e := Window(l), l.count, s.events;
    if s.msStart == 0 { assert e * t == 0; }
    if !Clears(l, s, ms) {
      QuotientsAdd(e * t, t, n);
      assert (e + 1) * t == e * t + t;
      if e >= n {
        QuotientsAdd((e + 1) * t, t, n);
        assert (e - n + 1) * t == (e + 1) * t - n * t;
      }
    }
  }

  lemma {:induction false} DeadlinePiles(l: Limit, states: seq<State>, times: seq<int>, refused: seq<bool>, i: nat,
                                         j: nat)
    requires IsRun(l, states, times, refused) && i < j <= |times|
    ensures Deadline(l, states[j]) >= times[i] + (j - i) * Spacing(l)
    decreases j
  {
    hide After, Deadline, Refuses, Spacing;
    RunStarted(l, states, times, refused, j - 1);
    DeadlineGrows(l, states[j - 1], times[j - 1]);
    if j - 1 > i {
      DeadlinePiles(l, states, times, refused, i, j - 1);
      assert (j - i) * Spacing(l) == (j - 1 - i) * Spacing(l) + Spacing(l);
    } else {
      assert (j - i) * Spacing(l) == Spacing(l);
    }
  }

  lemma {:induction false} RunStarted(l: Limit, states: seq<State>, times: seq<int>, refused: seq<bool>, i: nat)
    requires IsRun(l, states, times, refused) && i < |states|
    ensures Started(states[i])
    decreases i
  {
    hide After, Deadline, Refuses, Spacing;
    if i > 0 {
      RunStarted(l, states, times, refused, i - 1);
      DeadlineGrows(l, states[i - 1], times[i - 1]);
    }
  }

  function AcceptedIn(refused: seq<bool>, i: nat, j: nat): nat
    requires i <= j <= |refused|
    decreases j - i
  {
    if i == j then 0 else AcceptedIn(refused, i, j - 1) + (if refused[j - 1] then 0 else 1)
  }

  lemma {:induction false} AcceptedAtMost(refused: seq<bool>, i: nat, j: nat)
    requires i <= j <= |refused|
    ensures AcceptedIn(refused, i, j) <= j - i
    decreases j - i
  {
    if i < j { AcceptedAtMost(refused, i, j - 1); }
  }

  /** From any event to any accepted one: the events in between, however they were
      answered, take less time at the allowed rate than there was, and a window. */
  lemma BetweenEvents(l: Limit, states: seq<State>, times: seq<int>, refused: seq<bool>, i: nat, j: nat)
    requires IsRun(l, states, times, refused) && i <= j < |times| && !refused[j]
    ensures (j - i) * Spacing(l) < times[j] - times[i] + Window(l)
  {
    hide After, Deadline, Refuses, Spacing, Window, Valid;
    RunStarted(l, states, times, refused, j);
    NotRefused(l, states[j], times[j]);
    if i < j {
      DeadlinePiles(l, states, times, refused, i, j);
    } else {
      assert (j - i) * Spacing(l) == 0;
      WindowPositive(l);
    }
  }

  lemma WindowPositive(l: Limit)
    ensures l.seconds > 0 ==> Window(l) > 0
  {
  }

  lemma NotRefused(l: Limit, s: State, ms: int)
    requires l.count > 0 && l.seconds > 0 && ms > 0 && Valid(l, s, ms) && Started(s) && !Refuses(l, s, ms)
    ensures Deadline(l, s) < ms + Window(l)
  {
    if s.msStart == 0 { assert s.events * Window(l) == 0; }
  }

  /** The bound: `k` accepted events within `W` milliseconds satisfy (k-1)*T < N*(W+T),
      across all resets and carry-overs. */
  lemma WindowBound(l: Limit, states: seq<State>, times: seq<int>, refused: seq<bool>, i: nat, j: nat)
    requires IsRun(l, states, times, refused) && i <= j < |times| && !refused[j]
    requires Window(l) % l.count == 0
    ensures var k, w := AcceptedIn(refused, i, j + 1), times[j] - times[i];
            (k - 1) * Window(l) < l.count * (w + Window(l))
  {
    hide Window, Spacing, Valid, After, Refuses;
    AcceptedAtMost(refused, i, j + 1);
    BetweenEvents(l, states, times, refused, i, j);
    WindowPositive(l);
    SpacingExact(l);
    Scale(AcceptedIn(refused, i, j + 1) - 1, j - i, Spacing(l), Window(l), l.count, times[j] - times[i]);
  }

  lemma SpacingExact(l: Limit)
    requires l.count > 0 && Window(l) % l.count == 0
    ensures Spacing(l) * l.count == Window(l)
  {
  }

  lemma Scale(k: int, d: int, spacing: int, window: int, n: int, w: int)
    requires k <= d && n > 0 && window > 0 && spacing * n == window && d * spacing < w + window
    ensures k * window < n * (w + window)
  {
    MulLess(n, d * spacing, w + window);
    assert n * (d * spacing) == d * window;
    assert (d - k) * window >= 0;
  }

  lemma MulLess(n: int, a: int, b: int)
    requires n > 0 && a < b
    ensures n * a < n * b
  {
    assert n * (b - a) > 0;
  }

  /** Who keeps to the allowed rate is never refused. */
  lemma {:induction false} NeverRefused(l: Limit, states: seq<State>, times: seq<int>, refused: seq<bool>, i: nat)
    requires IsRun(l, states, times, refused) && i < |times|
    requires forall k :: 0 <= k < |times| - 1 ==> times[k + 1] - times[k] >= Spacing(l)
    ensures !refused[i] && states[i + 1].bannedTil == 0 && Clears(l, states[i], times[i])
    decreases i
  {
    RunStarted(l, states, times, refused, i);
    if i == 0 {
    } else {
      NeverRefused(l, states, times, refused, i - 1);
      RunStarted(l, states, times, refused, i - 1);
      DeadlineGrows(l, states[i - 1], times[i - 1]);
      assert times[i - 1 + 1] - times[i - 1] >= Spacing(l);
    }
  }

  // ---- The bound is exact ---------------------------------------------------------------

  /** A run and its answers, so far. */
  datatype Run = Run(states: seq<State>, times: seq<int>, refused: seq<bool>)

  /** A run in which nobody has been refused. */
  ghost predicate AllPass(l: Limit, r: Run) {
    && |r.states| == |r.times| + 1 && |r.refused| == |r.times| && IsRun(l, r.states, r.times, r.refused)
    && forall i :: 0 <= i < |r.refused| ==> !r.refused[i]
  }

  /** One more event, which passes. */
  lemma Pass(l: Limit, r: Run, ms: int) returns (r': Run)
    requires AllPass(l, r) && ms > 0 && (r.times != [] ==> r.times[|r.times| - 1] <= ms)
    requires Valid(l, r.states[|r.times|], ms) && !Refuses(l, r.states[|r.times|], ms)
    ensures AllPass(l, r') && r'.times == r.times + [ms]
    ensures r'.states[|r'.times|] == After(l, r.states[|r.times|], ms)
  {
    hide Refuses, After, Valid;
    var s := r.states[|r.times|];
    r' := Run(r.states + [After(l, s, ms)], r.times + [ms], r.refused + [false]);
    forall i, j | 0 <= i <= j < |r'.times| ensures r'.times[i] <= r'.times[j] {
      if j == |r.times| && i < j { assert r.times[i] <= r.times[|r.times| - 1]; }
    }
  }

  predicate Even(l: Limit) { l.count > 0 && l.seconds > 0 && Window(l) % l.count == 0 }

  lemma SpacingPositive(l: Limit)
    requires Even(l)
    ensures Spacing(l) >= 1 && Spacing(l) * l.count == Window(l)
  {
    SpacingExact(l);
    WindowPositive(l);
    assert 0 * l.count == 0;
  }

  lemma DeadlineEven(l: Limit, s: State)
    requires Even(l)
    ensures Deadline(l, s) == s.msStart + s.events * Spacing(l)
  {
    hide Window;
    SpacingExact(l);
    assert s.events * (Spacing(l) * l.count) == (s.events * Spacing(l)) * l.count;
    DivideExactly(s.events * Spacing(l), l.count);
  }

  lemma DivideExactly(q: int, n: int)
    requires n > 0
    ensures q * n / n == q
  {
    DivideUniquely(q * n / n, q * n % n, q, 0, n);
  }

  predicate Counting(s: State, start: int, events: int) { s == State(start, 0, events, 0, false) }

  /** With nothing outstanding an event starts a new count. */
  lemma ClearPasses(l: Limit, r: Run, ms: int) returns (r': Run)
    requires AllPass(l, r) && Even(l) && ms > 0 && (r.times != [] ==> r.times[|r.times| - 1] <= ms)
    requires var s := r.states[|r.times|];
             Counting(s, s.msStart, s.events) && s.msStart >= 0 && s.events >= 0 && Clears(l, s, ms)
    ensures AllPass(l, r') && r'.times == r.times + [ms] && Counting(r'.states[|r'.times|], ms, 1)
  {
    hide IsRun, Deadline;
    r' := Pass(l, r, ms);
  }

  /** An event passes as long as the count is not full. */
  lemma BurstPasses(l: Limit, r: Run, start: int, events: int, ms: int) returns (r': Run)
    requires AllPass(l, r) && Even(l) && 0 < start <= ms < start + events * Spacing(l)
    requires 0 < events < l.count && r.times != [] && r.times[|r.times| - 1] <= ms
    requires Counting(r.states[|r.times|], start, events)
    ensures AllPass(l, r') && r'.times == r.times + [ms] && Counting(r'.states[|r'.times|], start, events + 1)
  {
    hide IsRun, Deadline, Spacing, Window;
    var s := r.states[|r.times|];
    DeadlineEven(l, s);
    SpacingPositive(l);
    assert events * Spacing(l) < l.count * Spacing(l) by { MulStep(events, l.count, Spacing(l)); }
    r' := Pass(l, r, ms);
  }

  lemma {:induction false} Burst(l: Limit, r: Run, start: int, events: int, n: nat, ms: int) returns (r': Run)
    requires AllPass(l, r) && Even(l) && 0 < start <= ms < start + events * Spacing(l)
    requires 0 < events && events + n <= l.count && r.times != [] && r.times[|r.times| - 1] <= ms
    requires Counting(r.states[|r.times|], start, events)
    ensures AllPass(l, r') && |r'.times| == |r.times| + n && r'.times[..|r.times|] == r.times
    ensures Counting(r'.states[|r'.times|], start, events + n)
    ensures n > 0 ==> r'.times[|r'.times| - 1] == ms
    decreases n
  {
    hide IsRun, Spacing, Counting, Even;
    r' := r;
    if n > 0 {
      r' := BurstPasses(l, r, start, events, ms);
      SpacingPositive(l);
      assert (events + 1) * Spacing(l) == events * Spacing(l) + Spacing(l);
      r' := Burst(l, r', start, events + 1, n - 1, ms);
    }
  }

  /** The last one of a full count: it is carried over, and passes if it comes later than the
      count began. */
  lemma CarriedPasses(l: Limit, r: Run, start: int, ms: int) returns (r': Run)
    requires AllPass(l, r) && Even(l) && 0 < start < ms < start + Window(l)
    requires r.times != [] && r.times[|r.times| - 1] <= ms && Counting(r.states[|r.times|], start, l.count)
    ensures AllPass(l, r') && r'.times == r.times + [ms]
  {
    hide IsRun, Deadline, Spacing, Window, Overage;
    var s := r.states[|r.times|];
    DeadlineEven(l, s);
    SpacingPositive(l);
    assert Cheating(l, s, ms) <= 1;
    r' := Pass(l, r, ms);
  }

  /** When one event is through the next one finds nothing outstanding. */
  lemma ClearsAfterOne(l: Limit, s: State, start: int)
    requires Even(l) && start > 0 && Counting(s, start, 1)
    ensures Clears(l, s, start + Spacing(l))
  {
    hide Spacing, Deadline;
    DeadlineEven(l, s);
  }

  lemma OneSpacingLater(m: int, spacing: int)
    requires m > 1 && spacing > 0
    ensures (m - 1) * spacing == (m - 2) * spacing + spacing && (m - 2) * spacing >= 0
  {
  }

  /** Events at the allowed rate, from time 1 on. */
  lemma {:induction false} Spaced(l: Limit, m: nat) returns (r: Run)
    requires Even(l) && m > 0
    ensures AllPass(l, r) && |r.times| == m && r.times[0] == 1 && r.times[m - 1] == 1 + (m - 1) * Spacing(l)
    ensures Counting(r.states[m], 1 + (m - 1) * Spacing(l), 1)
    decreases m
  {
    hide IsRun, Spacing, Clears, Window;
    SpacingPositive(l);
    if m == 1 {
      FreshPasses(l);
      FreshClears(l);
      r := ClearPasses(l, Run([Fresh], [], []), 1);
      assert 0 * Spacing(l) == 0;
    } else {
      r := Spaced(l, m - 1);
      var last := 1 + (m - 2) * Spacing(l);
      OneSpacingLater(m, Spacing(l));
      ClearsAfterOne(l, r.states[m - 1], last);
      r := ClearPasses(l, r, last + Spacing(l));
    }
  }

  lemma FreshClears(l: Limit)
    requires Even(l)
    ensures Clears(l, Fresh, 1)
  {
  }

  lemma FreshPasses(l: Limit)
    requires Even(l)
    ensures AllPass(l, Run([Fresh], [], []))
  {
  }

  /** As many events as the bound allows, all of them accepted. */
  lemma AsManyAsAllowed(l: Limit, k: nat, w: nat) returns (r: Run)
    requires Even(l) && k >= 1 && (k - 1) * Window(l) < l.count * (w + Window(l))
    ensures AllPass(l, r) && |r.times| == k && r.times[k - 1] - r.times[0] <= w
  {
    hide IsRun, Spacing, Window;
    SpacingPositive(l);
    if k <= l.count {
      r := Spaced(l, 1);
      assert (1 - 1) * Spacing(l) == 0;
      r := Burst(l, r, 1, 1, k - 1, 1);
    } else {
      var m := k - l.count;
      r := Spaced(l, m);
      FitsWindow(k, m, l.count, Spacing(l), Window(l), w);
      var last := 1 + (m - 1) * Spacing(l);
      if Spacing(l) == 1 {
        DeadlineEven(l, r.states[m]);
        r := ClearPasses(l, r, last + 1);
        r := Burst(l, r, last + 1, 1, l.count - 1, last + 1);
      } else {
        r := Burst(l, r, last, 1, l.count - 1, last + 1);
        WindowWide(l);
        r := CarriedPasses(l, r, last, last + 1);
      }
    }
  }

  lemma WindowWide(l: Limit)
    requires Even(l)
    ensures Window(l) > 1
  {
  }

  lemma FitsWindow(k: int, m: int, n: int, spacing: int, window: int, w: int)
    requires n > 0 && spacing >= 1 && m == k - n >= 1 && spacing * n == window && (k - 1) * window < n * (w + window)
    ensures 0 <= (m - 1) * spacing < w
  {
    assert (k - 1) * window == n * ((k - 1) * spacing);
    if (k - 1) * spacing >= w + window { MulAtLeast(n, (k - 1) * spacing, w + window); }
    assert (k - 1) * spacing == (m - 1) * spacing + n * spacing;
  }

  lemma MulAtLeast(n: int, a: int, b: int)
    requires n > 0 && a >= b
    ensures n * a >= n * b
  {
    assert n * (a - b) >= 0;
  }

  /** Some run has `k` accepted events from its `i`th to its `j`th, and these within `w`. */
  ghost predicate HasBurst(l: Limit, r: Run, i: nat, j: nat, k: nat, w: nat) {
    && IsRun(l, r.states, r.times, r.refused) && i <= j < |r.times| && !r.refused[j]
    && r.times[j] - r.times[i] <= w && AcceptedIn(r.refused, i, j + 1) == k
  }

  lemma {:induction false} AcceptedAll(refused: seq<bool>, j: nat)
    requires j <= |refused| && forall i :: 0 <= i < |refused| ==> !refused[i]
    ensures AcceptedIn(refused, 0, j) == j
    decreases j
  {
    if j > 0 { AcceptedAll(refused, j - 1); }
  }

  /** How many events can be accepted within `w` milliseconds, if the window is a multiple of
      the count: `k` of them exactly if (k-1)*T < N*(w+T). */
  lemma BoundIsExact(l: Limit, k: nat, w: nat)
    requires Even(l) && k >= 1
    ensures (exists r, i: nat, j: nat :: HasBurst(l, r, i, j, k, w))
            <==> (k - 1) * Window(l) < l.count * (w + Window(l))
  {
    hide IsRun, Window, AcceptedIn;
    if (k - 1) * Window(l) < l.count * (w + Window(l)) {
      var r := AsManyAsAllowed(l, k, w);
      RunLengths(l, r);
      AcceptedAll(r.refused, k);
      assert HasBurst(l, r, 0, k - 1, k, w);
    }
    if r, i: nat, j: nat :| HasBurst(l, r, i, j, k, w) {
      WindowBound(l, r.states, r.times, r.refused, i, j);
      MulAtLeast(l.count, w + Window(l), r.times[j] - r.times[i] + Window(l));
    }
  }

  lemma RunLengths(l: Limit, r: Run)
    requires IsRun(l, r.states, r.times, r.refused)
    ensures |r.refused| == |r.times|
  {
  }

  /** It is not so many events in so many seconds: two are allowed in two seconds, and three
      come through within a millisecond. */
  lemma MoreThanTheCount() returns (l: Limit, r: Run)
    ensures l.count == 2 && l.seconds == 2
    ensures AllPass(l, r) && r.times == [5000, 5000, 5001]
  {
    l := Limit(2, 2, 10);
    FreshPasses(l);
    r := ClearPasses(l, Run([Fresh], [], []), 5000);
    r := BurstPasses(l, r, 5000, 1, 5000);
    r := CarriedPasses(l, r, 5000, 5001);
  }
}
