/**
  The gateway's life: queries are admitted until a drain starts, a drain waits for them, and a
  shutdown drains once, gives up every lock and remembers how it went.

  Any number of threads call in any order. An action is one stretch under the condition variable,
  or one use of the shared guard; between two actions of a thread any others may act.
*/
module Lifecycle {
  import opened Wrappers

  datatype Outcome = Outcome(drained: bool, finished: nat, cancelled: nat, remaining: nat, guardsHeld: bool)

  /** Where a thread is. `shut` tells a call of `shutdown` from a call of `drain`. */
  datatype Phase =
    | Idle
    | Admitted | Inside | Leaving
    | Called(shut: bool)
    | Waiting(shut: bool)
    | Counting(shut: bool, remaining: nat)
    | Releasing(shut: bool, remaining: nat)
    | Reading(shut: bool, remaining: nat)
    | Reporting(shut: bool, remaining: nat, finished: nat)
    | LettingGo(o: Outcome)
    | Looking(o: Outcome)
    | Storing(o: Outcome)
    | Returned(shut: bool, o: Outcome)
  {
    predicate InQuery() { Admitted? || Inside? || Leaving? }

    /** A shutdown that found no earlier outcome and has not stored its own yet. */
    predicate ShutdownPending() {
      LettingGo? || Looking? || Storing?
      || ((Called? || Waiting? || Counting? || Releasing? || Reading? || Reporting?) && shut)
    }
  }

  /** Who put the locks there that the one shared guard holds. */
  datatype Use = Free | By(t: nat) | LeftBehind

  /** `admitted` and `anyLeft` remember the past; the program does not keep them. */
  datatype System = System(
    hasGuard: bool,
    draining: bool,
    inFlight: nat,
    finished: nat,
    cancelled: nat,
    outcome: Option<Outcome>,
    use: Use,
    threads: seq<Phase>,
    admitted: nat,
    anyLeft: bool)

  datatype Action =
    | Admit(t: nat)
    | TakeGuard(t: nat)
    | GuardRefused(t: nat, left: bool)  // the reader's acquisition fails before or after taking a lock
    | Body(t: nat)                      // the query ends; the reader context gives up everything
    | Finish(t: nat)
    | StartDrain(t: nat)
    | Call(t: nat, shut: bool)
    | Begin(t: nat, badBudget: bool)
    | WaitEnds(t: nat)                  // nothing is in flight, or the time is up
    | Count(t: nat)
    | ReleaseAll(t: nat, fails: bool)
    | ReadFinished(t: nat)
    | Report(t: nat)
    | LetGo(t: nat, fails: bool)
    | Look(t: nat)
    | Store(t: nat)
    | Collect(t: nat)

  predicate Enabled(s: System, a: Action) {
    && a.t < |s.threads|
    && var phase := s.threads[a.t];
    match a
    case Admit(_) => phase.Idle? && !s.draining
    case TakeGuard(_) => s.hasGuard && s.use.Free? && (phase.Admitted? || phase.Inside?)
    case GuardRefused(_, left) =>
      (phase.Admitted? || phase.Inside?) && (left ==> s.hasGuard && (s.use.Free? || phase.Inside?))
    case Body(_) => phase.Inside? || (phase.Admitted? && !s.hasGuard)
    case Finish(_) => phase.Leaving?
    case StartDrain(_) => phase.Idle?
    case Call(_, _) => phase.Idle?
    case Begin(_, _) => phase.Called?
    case WaitEnds(_) => phase.Waiting?
    case Count(_) => phase.Counting? && phase.remaining > 0
    case ReleaseAll(_, fails) => phase.Releasing? && (fails ==> s.hasGuard)
    case ReadFinished(_) => phase.Reading?
    case Report(_) => phase.Reporting?
    case LetGo(_, fails) => phase.LettingGo? && (fails ==> s.hasGuard)
    case Look(_) => phase.Looking?
    case Store(_) => phase.Storing?
    case Collect(_) => phase.Returned?
  }

  function To(s: System, t: nat, phase: Phase): System
    requires t < |s.threads|
  {
    s.(threads := s.threads[t := phase])
  }

  function Next(s: System, a: Action): System
    requires Enabled(s, a)
  {
    var phase := s.threads[a.t];
    match a
    case Admit(t) => To(s, t, Admitted).(inFlight := s.inFlight + 1, admitted := s.admitted + 1)
    case TakeGuard(t) => To(s, t, Inside).(use := By(t))
    case GuardRefused(t, left) =>
      if left then To(s, t, Leaving).(use := LeftBehind, anyLeft := true)
      else if phase.Inside? then To(s, t, Leaving).(use := Free)
      else To(s, t, Leaving)
    case Body(t) => To(s, t, Leaving).(use := if s.hasGuard then Free else s.use)
    case Finish(t) =>
      To(s, t, Idle).(inFlight := if s.inFlight > 0 then s.inFlight - 1 else 0, finished := s.finished + 1)
    case StartDrain(t) => s.(draining := true)
    case Call(t, shut) =>
      if shut && s.outcome.Some? then To(s, t, Returned(true, s.outcome.value)) else To(s, t, Called(shut))
    case Begin(t, bad) => To(s, t, if bad then Idle else Waiting(phase.shut)).(draining := true)
    case WaitEnds(t) =>
      To(s, t, if s.inFlight > 0 then Counting(phase.shut, s.inFlight) else Reading(phase.shut, 0))
    case Count(t) => To(s, t, Releasing(phase.shut, phase.remaining)).(cancelled := s.cancelled + phase.remaining)
    case ReleaseAll(t, fails) =>
      To(s, t, if fails then Idle else Reading(phase.shut, phase.remaining)).(use := Free)
    case ReadFinished(t) => To(s, t, Reporting(phase.shut, phase.remaining, s.finished))
    case Report(t) =>
      var o := Outcome(phase.remaining == 0, phase.finished, phase.remaining, phase.remaining, !s.use.Free?);
      To(s, t, if phase.shut then LettingGo(o) else Returned(false, o))
    case LetGo(t, fails) => To(s, t, if fails then Idle else Looking(phase.o)).(use := Free)
    case Look(t) => To(s, t, Storing(phase.o.(guardsHeld := !s.use.Free?)))
    case Store(t) => To(s, t, Returned(true, phase.o)).(outcome := Some(phase.o))
    case Collect(t) => To(s, t, Idle)
  }

  /** `actions` is a run from `s` that ends in `t`. */
  ghost predicate Run(s: System, actions: seq<Action>, t: System)
    decreases |actions|
  {
    if actions == [] then s == t
    else Enabled(s, actions[0]) && Run(Next(s, actions[0]), actions[1..], t)
  }

  ghost predicate Initial(s: System) {
    && !s.draining && s.outcome.None? && s.use.Free? && !s.anyLeft
    && s.inFlight == s.finished == s.cancelled == s.admitted == 0
    && forall t :: 0 <= t < |s.threads| ==> s.threads[t].Idle?
  }

  // ---------------------------------------------------------------- the invariant

  function InFlight(threads: seq<Phase>): nat {
    if threads == [] then 0
    else InFlight(threads[..|threads| - 1]) + if threads[|threads| - 1].InQuery() then 1 else 0
  }

  lemma {:induction false} InFlightUpdate(threads: seq<Phase>, t: nat, phase: Phase)
    requires t < |threads|
    ensures InFlight(threads[t := phase]) ==
      InFlight(threads) - (if threads[t].InQuery() then 1 else 0) + (if phase.InQuery() then 1 else 0)
  {
    var last := |threads| - 1;
    if t == last {
      assert threads[t := phase][..last] == threads[..last];
    } else {
      assert threads[t := phase][..last] == threads[..last][t := phase];
      InFlightUpdate(threads[..last], t, phase);
    }
  }

  lemma {:induction false} InQueryCounted(threads: seq<Phase>, t: nat)
    requires t < |threads| && threads[t].InQuery()
    ensures InFlight(threads) > 0
  {
    if t < |threads| - 1 { InQueryCounted(threads[..|threads| - 1], t); }
  }

  /** What every returned outcome says about the queries ever admitted. */
  predicate Tells(s: System, o: Outcome) {
    && s.draining
    && o.drained == (o.remaining == 0) && o.cancelled == o.remaining
    && o.finished <= s.finished && s.admitted <= o.finished + o.remaining
    && (o.drained && o.guardsHeld ==> s.anyLeft)
  }

  predicate Clear(s: System, o: Outcome) {
    o.drained ==> s.use.Free?
  }

  predicate Fits(s: System, phase: Phase) {
    match phase
    case Waiting(_) => s.draining
    case Counting(_, r) => s.draining && s.admitted <= r + s.finished && r > 0
    case Releasing(_, r) => s.draining && s.admitted <= r + s.finished && r > 0
    case Reading(_, r) => s.draining && s.admitted <= r + s.finished
    case Reporting(_, r, f) => s.draining && f <= s.finished && s.admitted <= r + f
    case LettingGo(o) => Tells(s, o)
    case Looking(o) => Tells(s, o) && Clear(s, o)
    case Storing(o) => Tells(s, o) && Clear(s, o) && !(o.drained && o.guardsHeld)
    case Returned(shut, o) => Tells(s, o) && (shut ==> Clear(s, o) && !(o.drained && o.guardsHeld))
    case _ => true
  }

  ghost predicate Inv(s: System) {
    && s.inFlight == InFlight(s.threads)
    && s.admitted == s.inFlight + s.finished
    && (forall t :: 0 <= t < |s.threads| ==> Fits(s, s.threads[t]))
    && (s.outcome.Some? ==> Fits(s, Returned(true, s.outcome.value)))
    && UseFits(s)
  }

  /** Locks are held by a query inside the guard, or were left behind by a failed reader. */
  predicate UseFits(s: System) {
    && (s.use.By? ==> s.use.t < |s.threads| && s.threads[s.use.t].Inside?)
    && (s.use.LeftBehind? ==> s.anyLeft)
    && (!s.hasGuard ==> s.use.Free?)
  }

  lemma {:induction false} StepKeepsUse(s: System, a: Action)
    requires UseFits(s) && Enabled(s, a)
    ensures UseFits(Next(s, a)) && |Next(s, a).threads| == |s.threads|
  {
  }

  lemma {:induction false} StepCounts(s: System, a: Action)
    requires Inv(s) && Enabled(s, a)
    ensures Next(s, a).inFlight == InFlight(Next(s, a).threads)
    ensures Next(s, a).admitted == Next(s, a).inFlight + Next(s, a).finished
  {
    var t := Next(s, a);
    assert t.threads == s.threads[a.t := t.threads[a.t]];
    InFlightUpdate(s.threads, a.t, t.threads[a.t]);
    if a.Finish? { InQueryCounted(s.threads, a.t); }
  }

  /** Once nothing is in flight and no more is admitted, nobody can take the guard again. */
  lemma {:induction false} NobodyLeftToTake(s: System, a: Action, o: Outcome)
    requires Inv(s) && Enabled(s, a) && Tells(s, o) && o.drained
    ensures s.inFlight == 0 && !a.TakeGuard? && !a.GuardRefused? && !a.Admit?
    ensures s.use.Free? ==> Next(s, a).use.Free?
  {
    if s.threads[a.t].InQuery() { InQueryCounted(s.threads, a.t); }
  }

  /** What only ever moves one way. */
  predicate Grows(s: System, t: System) {
    && s.finished <= t.finished
    && (s.draining ==> t.draining && t.admitted == s.admitted)
    && (s.anyLeft ==> t.anyLeft)
  }

  lemma {:induction false} StepGrows(s: System, a: Action)
    requires Enabled(s, a)
    ensures Grows(s, Next(s, a))
  {
  }

  lemma {:induction false} FitsGrows(s: System, t: System, phase: Phase)
    requires Fits(s, phase) && Grows(s, t)
    requires phase.Looking? || phase.Storing? || phase.Returned? ==> Clear(s, phase.o) ==> Clear(t, phase.o)
    ensures Fits(t, phase)
  {
  }

  /** What a thread or the stored outcome says stays true whatever another action does. */
  lemma {:induction false} StepKeepsFits(s: System, a: Action, phase: Phase)
    requires Inv(s) && Enabled(s, a) && Fits(s, phase)
    ensures Fits(Next(s, a), phase)
  {
    StepGrows(s, a);
    if (phase.Looking? || phase.Storing? || phase.Returned?) && phase.o.drained {
      NobodyLeftToTake(s, a, phase.o);
    }
    FitsGrows(s, Next(s, a), phase);
  }

  lemma {:induction false} OwnStepFits(s: System, a: Action)
    requires Inv(s) && Enabled(s, a)
    ensures Fits(Next(s, a), Next(s, a).threads[a.t])
  {
    if a.Report? && s.use.By? {
      InQueryCounted(s.threads, s.use.t);
    }
  }

  lemma {:induction false} StepKeepsInv(s: System, a: Action)
    requires Inv(s) && Enabled(s, a)
    ensures Inv(Next(s, a)) && |Next(s, a).threads| == |s.threads|
  {
    var t := Next(s, a);
    StepCounts(s, a);
    StepKeepsUse(s, a);
    OwnStepFits(s, a);
    forall i | 0 <= i < |t.threads| ensures Fits(t, t.threads[i]) {
      if i != a.t { StepKeepsFits(s, a, s.threads[i]); }
    }
    if t.outcome.Some? { StoredFits(s, a); }
  }

  lemma {:induction false} StoredFits(s: System, a: Action)
    requires Inv(s) && Enabled(s, a) && Next(s, a).outcome.Some?
    ensures Fits(Next(s, a), Returned(true, Next(s, a).outcome.value))
  {
    if a.Store? { OwnStepFits(s, a); }
    else { StepKeepsFits(s, a, Returned(true, s.outcome.value)); }
  }

  lemma {:induction false} RunKeepsInv(s: System, actions: seq<Action>, t: System)
    requires Inv(s) && Run(s, actions, t)
    ensures Inv(t) && |t.threads| == |s.threads|
    decreases |actions|
  {
    if actions != [] {
      StepKeepsInv(s, actions[0]);
      RunKeepsInv(Next(s, actions[0]), actions[1..], t);
    }
  }

  lemma {:induction false} IdleCountsNothing(threads: seq<Phase>)
    requires forall t :: 0 <= t < |threads| ==> threads[t].Idle?
    ensures InFlight(threads) == 0
  {
    if threads != [] { IdleCountsNothing(threads[..|threads| - 1]); }
  }

  /** In every interleaving, what was admitted is either in flight or finished. */
  lemma {:induction false} AdmittedIsAccounted(s: System, actions: seq<Action>, t: System)
    requires Initial(s) && Run(s, actions, t)
    ensures t.admitted == t.inFlight + t.finished
    ensures Inv(t)
  {
    IdleCountsNothing(s.threads);
    RunKeepsInv(s, actions, t);
  }

  /** After a drain has started nothing is ever admitted again. */
  lemma {:induction false} DrainAdmitsNothing(s: System, actions: seq<Action>, t: System)
    requires Run(s, actions, t) && s.draining
    ensures t.draining && t.admitted == s.admitted && t.finished >= s.finished
    decreases |actions|
  {
    if actions != [] { DrainAdmitsNothing(Next(s, actions[0]), actions[1..], t); }
  }

  /**
    What a returned drain or shutdown says is true: the queries that finished by then and those it
    still waited for cover everything ever admitted; a drained one leaves none in flight; and a lock
    it still sees is one a failed reader left behind.
  */
  lemma {:induction false} OutcomeIsTrue(s: System, actions: seq<Action>, t: System, i: nat)
    requires Initial(s) && Run(s, actions, t) && i < |t.threads| && t.threads[i].Returned?
    ensures var o := t.threads[i].o;
      && o.finished <= t.admitted <= o.finished + o.remaining
      && o.drained == (o.remaining == 0) && o.cancelled == o.remaining
      && (o.drained ==> t.inFlight == 0 && t.finished == o.finished == t.admitted)
      && (o.drained && o.guardsHeld ==> t.anyLeft && !t.threads[i].shut)
  {
    AdmittedIsAccounted(s, actions, t);
    assert Fits(t, t.threads[i]);
  }

  /** After a drained shutdown no query runs and no lock is held, in every state from then on. */
  lemma {:induction false} DrainedShutdownLeavesNothing(s: System, actions: seq<Action>, t: System, later: seq<Action>, u: System)
    requires Initial(s) && Run(s, actions, t) && t.outcome.Some? && t.outcome.value.drained && Run(t, later, u)
    ensures !t.outcome.value.guardsHeld
    ensures u.inFlight == 0 && u.use.Free?
  {
    AdmittedIsAccounted(s, actions, t);
    StaysClear(t, later, u, t.outcome.value);
  }

  lemma {:induction false} StaysClear(s: System, actions: seq<Action>, t: System, o: Outcome)
    requires Inv(s) && Run(s, actions, t) && Tells(s, o) && o.drained && s.use.Free?
    ensures t.inFlight == 0 && t.use.Free?
    decreases |actions|
  {
    if actions != [] {
      NobodyLeftToTake(s, actions[0], o);
      StepKeepsInv(s, actions[0]);
      StepKeepsFits(s, actions[0], LettingGo(o));
      StaysClear(Next(s, actions[0]), actions[1..], t, o);
    }
  }

  // ---------------------------------------------------------------- putting runs together

  lemma {:induction false} Then(s: System, a: Action, rest: seq<Action>, t: System)
    requires Enabled(s, a) && Run(Next(s, a), rest, t)
    ensures Run(s, [a] + rest, t)
  {
    assert ([a] + rest)[1..] == rest;
  }

  lemma {:induction false} RunConcat(s: System, first: seq<Action>, t: System, second: seq<Action>, u: System)
    requires Run(s, first, t) && Run(t, second, u)
    ensures Run(s, first + second, u)
    decreases |first|
  {
    if first == [] {
      assert first + second == second;
    } else {
      assert (first + second)[1..] == first[1..] + second;
      RunConcat(Next(s, first[0]), first[1..], t, second, u);
    }
  }

  // ---------------------------------------------------------------- a lock left behind

  /** A drain that saw no query left reports held locks exactly when a failed reader left some behind. */
  lemma {:induction false} DrainedReportsLeftovers(s: System, t: nat)
    requires Inv(s) && Enabled(s, Report(t)) && s.threads[t].remaining == 0
    ensures var phase := Next(s, Report(t)).threads[t];
      && (phase.LettingGo? || phase.Returned?) && phase.o.drained
      && (phase.o.guardsHeld <==> s.use.LeftBehind?)
  {
    if s.use.By? { InQueryCounted(s.threads, s.use.t); }
  }

  lemma {:induction false} ReaderLeaves() returns (s: System, t: System, actions: seq<Action>)
    ensures Initial(s) && Run(s, actions, t)
    ensures t == System(true, false, 0, 1, 0, None, LeftBehind, [Idle, Idle], 1, true)
  {
    s := System(true, false, 0, 0, 0, None, Free, [Idle, Idle], 0, false);
    var s1 := Next(s, Admit(0));
    var s2 := Next(s1, GuardRefused(0, true));
    t := Next(s2, Finish(0));
    Then(s2, Finish(0), [], t);
    Then(s1, GuardRefused(0, true), [Finish(0)], t);
    actions := [GuardRefused(0, true)] + [Finish(0)];
    Then(s, Admit(0), actions, t);
    actions := [Admit(0)] + actions;
  }

  lemma {:induction false} DrainWaits(s: System) returns (t: System, actions: seq<Action>)
    requires s == System(true, false, 0, 1, 0, None, LeftBehind, [Idle, Idle], 1, true)
    ensures Run(s, actions, t)
    ensures t == System(true, true, 0, 1, 0, None, LeftBehind, [Idle, Reading(false, 0)], 1, true)
  {
    var s1 := Next(s, Call(1, false));
    var s2 := Next(s1, Begin(1, false));
    t := Next(s2, WaitEnds(1));
    Then(s2, WaitEnds(1), [], t);
    Then(s1, Begin(1, false), [WaitEnds(1)], t);
    actions := [Begin(1, false)] + [WaitEnds(1)];
    Then(s, Call(1, false), actions, t);
    actions := [Call(1, false)] + actions;
  }

  /** A run whose drain is complete and still reports a lock: one query's reader failed halfway. */
  lemma {:induction false} DrainedButHeld() returns (s: System, actions: seq<Action>, t: System)
    ensures Initial(s) && Run(s, actions, t) && |t.threads| == 2
    ensures t.threads[1].Returned? && t.threads[1].o.drained && t.threads[1].o.guardsHeld
    ensures t.inFlight == 0 && t.admitted == 1
  {
    var u, first;
    s, u, first := ReaderLeaves();
    var v, second := DrainWaits(u);
    var v1 := Next(v, ReadFinished(1));
    t := Next(v1, Report(1));
    Then(v1, Report(1), [], t);
    Then(v, ReadFinished(1), [Report(1)], t);
    var third := [ReadFinished(1)] + [Report(1)];
    RunConcat(s, first, u, second, v);
    RunConcat(s, first + second, v, third, t);
    actions := first + second + third;
  }
}
