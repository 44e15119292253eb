/**
  When a shutdown has returned, what later ones can be told: the exact condition under which every
  one of them gets the same outcome, and a run in which one does not.
*/
module Shutdowns {
  import opened Wrappers
  import opened Lifecycle

  // ---------------------------------------------------------------- a shutdown left to itself

  /** The action a pending shutdown takes next. */
  function OwnNext(phase: Phase, t: nat): Action {
    match phase
    case Called(_) => Begin(t, false)
    case Waiting(_) => WaitEnds(t)
    case Counting(_, _) => Count(t)
    case Releasing(_, _) => ReleaseAll(t, false)
    case Reading(_, _) => ReadFinished(t)
    case Reporting(_, _, _) => Report(t)
    case LettingGo(_) => LetGo(t, false)
    case Looking(_) => Look(t)
    case _ => Store(t)
  }

  function StepsLeft(phase: Phase): nat {
    match phase
    case Called(_) => 9
    case Waiting(_) => 8
    case Counting(_, _) => 7
    case Releasing(_, _) => 6
    case Reading(_, _) => 5
    case Reporting(_, _, _) => 4
    case LettingGo(_) => 3
    case Looking(_) => 2
    case Storing(_) => 1
    case _ => 0
  }

  /** What a pending shutdown stores if nobody else acts before it does. */
  function Alone(s: System, phase: Phase): Outcome {
    match phase
    case Called(_) => Outcome(s.inFlight == 0, s.finished, s.inFlight, s.inFlight, false)
    case Waiting(_) => Outcome(s.inFlight == 0, s.finished, s.inFlight, s.inFlight, false)
    case Counting(_, r) => Outcome(r == 0, s.finished, r, r, false)
    case Releasing(_, r) => Outcome(r == 0, s.finished, r, r, false)
    case Reading(_, r) => Outcome(r == 0, s.finished, r, r, false)
    case Reporting(_, r, f) => Outcome(r == 0, f, r, r, false)
    case LettingGo(o) => o.(guardsHeld := false)
    case Looking(o) => o.(guardsHeld := !s.use.Free?)
    case Storing(o) => o
    case _ => Outcome(true, 0, 0, 0, false)
  }

  function CountsAs(s: System, phase: Phase): nat {
    match phase
    case Called(_) => s.inFlight
    case Waiting(_) => s.inFlight
    case Counting(_, r) => r
    case _ => 0
  }

  /** The state in which it has then returned. */
  function Ended(s: System, t: nat): System
    requires t < |s.threads|
  {
    var phase := s.threads[t];
    To(s, t, Returned(true, Alone(s, phase))).(
      outcome := Some(Alone(s, phase)),
      draining := s.draining || phase.Called?,
      use := if phase.Looking? || phase.Storing? then s.use else Free,
      cancelled := s.cancelled + CountsAs(s, phase))
  }

  ghost predicate Pending(s: System, t: nat) {
    && t < |s.threads| && s.threads[t].ShutdownPending()
    && (s.threads[t].Counting? ==> s.threads[t].remaining > 0)
  }

  lemma {:induction false} OwnStep(s: System, t: nat)
    requires Pending(s, t) && StepsLeft(s.threads[t]) > 1
    ensures Enabled(s, OwnNext(s.threads[t], t))
    ensures var u := Next(s, OwnNext(s.threads[t], t));
      && Pending(u, t) && StepsLeft(u.threads[t]) < StepsLeft(s.threads[t])
      && u.threads == s.threads[t := u.threads[t]]
  {
  }

  lemma {:induction false} EarlyStepSame(s: System, t: nat)
    requires Pending(s, t) && StepsLeft(s.threads[t]) > 5 && Enabled(s, OwnNext(s.threads[t], t))
    ensures var u := Next(s, OwnNext(s.threads[t], t)); |u.threads| == |s.threads| && Alone(u, u.threads[t]) == Alone(s, s.threads[t])
  {
  }

  lemma {:induction false} LateStepSame(s: System, t: nat)
    requires Pending(s, t) && 1 < StepsLeft(s.threads[t]) <= 5 && Enabled(s, OwnNext(s.threads[t], t))
    ensures var u := Next(s, OwnNext(s.threads[t], t)); |u.threads| == |s.threads| && Alone(u, u.threads[t]) == Alone(s, s.threads[t])
  {
  }

  lemma {:induction false} OwnStepSame(s: System, t: nat)
    requires Pending(s, t) && StepsLeft(s.threads[t]) > 1 && Enabled(s, OwnNext(s.threads[t], t))
    ensures var u := Next(s, OwnNext(s.threads[t], t)); |u.threads| == |s.threads| && Alone(u, u.threads[t]) == Alone(s, s.threads[t])
  {
    if StepsLeft(s.threads[t]) > 5 { EarlyStepSame(s, t); } else { LateStepSame(s, t); }
  }

  lemma {:induction false} OwnStepEnds(s: System, t: nat)
    requires Pending(s, t) && StepsLeft(s.threads[t]) > 1 && Enabled(s, OwnNext(s.threads[t], t))
    ensures var u := Next(s, OwnNext(s.threads[t], t)); t < |u.threads| && Ended(u, t) == Ended(s, t)
  {
    OwnStep(s, t);
    OwnStepSame(s, t);
    var u := Next(s, OwnNext(s.threads[t], t));
    var end := Returned(true, Alone(s, s.threads[t]));
    assert u.threads[t := end] == s.threads[t := end];
  }

  /** A pending shutdown comes to its end by its own steps, whatever lock is held and by whomever. */
  lemma {:induction false} ShutdownEnds(s: System, t: nat) returns (actions: seq<Action>)
    requires Pending(s, t)
    ensures Run(s, actions, Ended(s, t))
    decreases StepsLeft(s.threads[t])
  {
    if StepsLeft(s.threads[t]) == 1 {
      actions := [];
      Then(s, Store(t), actions, Ended(s, t));
      actions := [Store(t)];
    } else {
      OwnStep(s, t);
      OwnStepEnds(s, t);
      var a := OwnNext(s.threads[t], t);
      var rest := ShutdownEnds(Next(s, a), t);
      Then(s, a, rest, Ended(s, t));
      actions := [a] + rest;
    }
  }

  // ---------------------------------------------------------------- the exact condition

  /** Some query can still put a lock into the shared guard. */
  ghost predicate CanTake(s: System) {
    s.hasGuard && exists t :: 0 <= t < |s.threads| && (s.threads[t].Admitted? || s.threads[t].Inside?)
  }

  /** Some drain is about to give up every lock. */
  ghost predicate WillRelease(s: System) {
    exists t :: 0 <= t < |s.threads| && (s.threads[t].Counting? || s.threads[t].Releasing?)
  }

  /**
    Nobody else can change any more what a pending shutdown will store: until it has read the
    counters, no query is in flight; from then on until it has looked at the guard, no query can
    take a lock it would see, nor anybody give up the one it sees.
  */
  ghost predicate Steady(s: System, phase: Phase) {
    match phase
    case Called(_) => s.inFlight == 0
    case Waiting(_) => s.inFlight == 0
    case Counting(_, _) => s.inFlight == 0
    case Releasing(_, _) => s.inFlight == 0
    case Reading(_, _) => s.inFlight == 0
    case Reporting(_, _, _) => !CanTake(s)
    case LettingGo(_) => !CanTake(s)
    case Looking(_) => if s.use.Free? then !CanTake(s) else s.inFlight == 0 && !WillRelease(s)
    case _ => true
  }

  /** Every shutdown still pending will store `o`, or nothing. */
  ghost predicate Agreed(s: System, o: Outcome) {
    && s.outcome == Some(o)
    && forall t :: 0 <= t < |s.threads| && s.threads[t].ShutdownPending() ==>
         Alone(s, s.threads[t]) == o && Steady(s, s.threads[t])
  }

  /** Whatever happens next, every shutdown called from now on is answered with `o`. */
  ghost predicate SameAnswer(s: System, o: Outcome) {
    forall actions, t, k: nat :: Run(s, actions, t) && Enabled(t, Call(k, true)) ==>
      Next(t, Call(k, true)).threads[k] == Returned(true, o)
  }

  lemma {:induction false} NoneInQuery(s: System, t: nat)
    requires Inv(s) && s.inFlight == 0 && t < |s.threads|
    ensures !s.threads[t].InQuery()
  {
    if s.threads[t].InQuery() { InQueryCounted(s.threads, t); }
  }

  lemma {:induction false} EmptyCannotTake(s: System)
    requires Inv(s) && s.inFlight == 0
    ensures !CanTake(s)
  {
    forall t | 0 <= t < |s.threads| ensures !s.threads[t].Admitted? && !s.threads[t].Inside? {
      NoneInQuery(s, t);
    }
  }

  /** Once draining, queries only go: none is admitted, and who could take a lock could before. */
  lemma {:induction false} QueriesOnlyGo(s: System, a: Action)
    requires Inv(s) && s.draining && Enabled(s, a)
    ensures var u := Next(s, a);
      && u.draining && u.inFlight <= s.inFlight
      && (s.inFlight == 0 ==> u.finished == s.finished)
      && (CanTake(u) ==> CanTake(s))
  {
    var u := Next(s, a);
    if s.inFlight == 0 { NoneInQuery(s, a.t); }
    if CanTake(u) {
      var t :| 0 <= t < |u.threads| && (u.threads[t].Admitted? || u.threads[t].Inside?);
      assert s.threads[t].Admitted? || s.threads[t].Inside?;
    }
  }

  /** Without a query that could take one, a free guard stays free. */
  lemma {:induction false} FreeStaysFree(s: System, a: Action)
    requires Enabled(s, a) && s.use.Free? && !CanTake(s)
    ensures Next(s, a).use.Free?
  {
  }

  /** A lock left behind stays while nobody is in a query, releasing, or letting go. */
  lemma {:induction false} HeldStaysHeld(s: System, a: Action)
    requires Inv(s) && s.draining && Enabled(s, a) && !s.use.Free? && s.inFlight == 0 && !WillRelease(s) && !a.LetGo?
    ensures !Next(s, a).use.Free? && !WillRelease(Next(s, a))
  {
    NoneInQuery(s, a.t);
    var u := Next(s, a);
    forall t | 0 <= t < |u.threads| ensures !u.threads[t].Counting? && !u.threads[t].Releasing? {
      if t != a.t { assert u.threads[t] == s.threads[t]; }
    }
  }

  /** What another thread's action leaves of a pending shutdown. */
  lemma {:induction false} OthersKeep(s: System, a: Action, o: Outcome, i: nat)
    requires Inv(s) && Agreed(s, o) && Enabled(s, a) && i < |s.threads| && i != a.t && s.threads[i].ShutdownPending()
    ensures Next(s, a).threads[i] == s.threads[i]
    ensures Alone(Next(s, a), s.threads[i]) == o && Steady(Next(s, a), s.threads[i])
  {
    assert Fits(s, Returned(true, o));
    QueriesOnlyGo(s, a);
    if s.threads[i].Looking? {
      if s.use.Free? {
        FreeStaysFree(s, a);
      } else {
        HeldStaysHeld(s, a);
      }
    }
  }

  /** What its own action leaves of it, if it is still pending then. */
  lemma {:induction false} OwnKeeps(s: System, a: Action, o: Outcome)
    requires Inv(s) && Agreed(s, o) && Enabled(s, a) && Next(s, a).threads[a.t].ShutdownPending()
    ensures Alone(Next(s, a), Next(s, a).threads[a.t]) == o && Steady(Next(s, a), Next(s, a).threads[a.t])
  {
    assert Fits(s, Returned(true, o));
    QueriesOnlyGo(s, a);
    assert s.threads[a.t].ShutdownPending();
    assert Fits(s, s.threads[a.t]);
    if s.inFlight == 0 { EmptyCannotTake(s); }
  }

  lemma {:induction false} StepKeepsAgreed(s: System, a: Action, o: Outcome)
    requires Inv(s) && Agreed(s, o) && Enabled(s, a)
    ensures Agreed(Next(s, a), o)
  {
    var u := Next(s, a);
    forall i | 0 <= i < |u.threads| && u.threads[i].ShutdownPending()
      ensures Alone(u, u.threads[i]) == o && Steady(u, u.threads[i])
    {
      if i == a.t { OwnKeeps(s, a, o); } else { OthersKeep(s, a, o, i); }
    }
    if a.Store? { assert s.threads[a.t].ShutdownPending(); }
  }

  lemma {:induction false} RunKeepsAgreed(s: System, actions: seq<Action>, t: System, o: Outcome)
    requires Inv(s) && Agreed(s, o) && Run(s, actions, t)
    ensures Agreed(t, o)
    decreases |actions|
  {
    if actions != [] {
      StepKeepsAgreed(s, actions[0], o);
      StepKeepsInv(s, actions[0]);
      RunKeepsAgreed(Next(s, actions[0]), actions[1..], t, o);
    }
  }

  // ---------------------------------------------------------------- otherwise some run tells

  lemma {:induction false} PositiveHasQuery(threads: seq<Phase>) returns (t: nat)
    requires InFlight(threads) > 0
    ensures t < |threads| && threads[t].InQuery()
  {
    var last := |threads| - 1;
    if threads[last].InQuery() { t := last; } else { t := PositiveHasQuery(threads[..last]); }
  }

  lemma {:induction false} Two(s: System, a: Action, b: Action)
    requires Enabled(s, a) && Enabled(Next(s, a), b)
    ensures Run(s, [a] + [b], Next(Next(s, a), b))
  {
    Then(Next(s, a), b, [], Next(Next(s, a), b));
    Then(s, a, [b], Next(Next(s, a), b));
  }

  /** One query can always come to its end. */
  lemma {:induction false} OneQueryEnds(s: System) returns (t: System, actions: seq<Action>, q: nat)
    requires Inv(s) && s.inFlight > 0
    ensures Run(s, actions, t) && q < |s.threads| == |t.threads| && s.threads[q].InQuery()
    ensures t.threads == s.threads[q := Idle]
    ensures t.inFlight == s.inFlight - 1 && t.finished == s.finished + 1
  {
    q := PositiveHasQuery(s.threads);
    if s.threads[q].Leaving? {
      t := Next(s, Finish(q));
      actions := [Finish(q)];
      Then(s, Finish(q), [], t);
    } else {
      t := Next(Next(s, GuardRefused(q, false)), Finish(q));
      actions := [GuardRefused(q, false)] + [Finish(q)];
      assert t.threads == s.threads[q := Idle];
      Two(s, GuardRefused(q, false), Finish(q));
    }
  }

  /** A pending shutdown that would store something else by itself gets a later one told so. */
  lemma {:induction false} TellsOtherwise(s: System, j: nat, o: Outcome) returns (t: System, actions: seq<Action>)
    requires Pending(s, j) && Alone(s, s.threads[j]) != o
    ensures Run(s, actions, t) && Enabled(t, Call(j, true))
    ensures Next(t, Call(j, true)).threads[j] != Returned(true, o)
  {
    var u := Ended(s, j);
    var own := ShutdownEnds(s, j);
    t := Next(u, Collect(j));
    Then(u, Collect(j), [], t);
    RunConcat(s, own, u, [Collect(j)], t);
    actions := own + [Collect(j)];
  }

  lemma {:induction false} TellsAfter(s: System, first: seq<Action>, mid: System, j: nat, o: Outcome)
    requires Run(s, first, mid) && Pending(mid, j) && Alone(mid, mid.threads[j]) != o
    ensures !SameAnswer(s, o)
  {
    var t, rest := TellsOtherwise(mid, j, o);
    RunConcat(s, first, mid, rest, t);
    assert Run(s, first + rest, t) && Enabled(t, Call(j, true));
  }

  /** Before it has read the counters: one query ending first makes a difference. */
  lemma {:induction false} CountersMove(s: System, j: nat, o: Outcome)
    requires Inv(s) && Pending(s, j) && s.inFlight > 0 && Alone(s, s.threads[j]) == o
    requires var p := s.threads[j]; p.Called? || p.Waiting? || p.Counting? || p.Releasing? || p.Reading?
    ensures !SameAnswer(s, o)
  {
    var t, actions, q := OneQueryEnds(s);
    assert t.threads[j] == s.threads[j];
    TellsAfter(s, actions, t, j, o);
  }

  /** Between letting go and looking: a query that takes the guard makes a difference. */
  lemma {:induction false} TakenBeforeLook(s: System, first: seq<Action>, mid: System, j: nat, o: Outcome)
    requires Run(s, first, mid) && j < |mid.threads| && mid.threads[j].Looking? && mid.use.Free? && CanTake(mid)
    requires Alone(mid, mid.threads[j]) == o
    ensures !SameAnswer(s, o)
  {
    var t :| 0 <= t < |mid.threads| && (mid.threads[t].Admitted? || mid.threads[t].Inside?);
    var u := Next(mid, TakeGuard(t));
    Then(mid, TakeGuard(t), [], u);
    RunConcat(s, first, mid, [TakeGuard(t)], u);
    TellsAfter(s, first + [TakeGuard(t)], u, j, o);
  }

  lemma {:induction false} TakenAfterLetGo(s: System, j: nat, o: Outcome)
    requires Pending(s, j) && CanTake(s) && Alone(s, s.threads[j]) == o
    requires s.threads[j].Reporting? || s.threads[j].LettingGo?
    ensures !SameAnswer(s, o)
  {
    var t :| 0 <= t < |s.threads| && (s.threads[t].Admitted? || s.threads[t].Inside?);
    var mid := s;
    var first: seq<Action> := [];
    if s.threads[j].Reporting? {
      mid := Next(s, Report(j));
      first := [Report(j)];
      Then(s, Report(j), [], mid);
    }
    var v := Next(mid, LetGo(j, false));
    Then(mid, LetGo(j, false), [], v);
    RunConcat(s, first, mid, [LetGo(j, false)], v);
    assert v.threads[t] == s.threads[t];
    TakenBeforeLook(s, first + [LetGo(j, false)], v, j, o);
  }

  /** A drain by an idle thread gives up every lock, as long as a query is in flight. */
  lemma {:induction false} IdleReleases(s: System, k: nat) returns (t: System, actions: seq<Action>)
    requires k < |s.threads| && s.threads[k].Idle? && s.inFlight > 0
    ensures Run(s, actions, t) && t.use.Free? && |t.threads| == |s.threads|
    ensures forall i :: 0 <= i < |s.threads| && i != k ==> t.threads[i] == s.threads[i]
  {
    var a := Next(Next(s, Call(k, false)), Begin(k, false));
    Two(s, Call(k, false), Begin(k, false));
    var b := Next(Next(a, WaitEnds(k)), Count(k));
    Two(a, WaitEnds(k), Count(k));
    t := Next(b, ReleaseAll(k, false));
    Then(b, ReleaseAll(k, false), [], t);
    var first, second := [Call(k, false)] + [Begin(k, false)], [WaitEnds(k)] + [Count(k)];
    RunConcat(s, first, a, second, b);
    RunConcat(s, first + second, b, [ReleaseAll(k, false)], t);
    actions := first + second + [ReleaseAll(k, false)];
  }

  /** A drain that is about to release does so. */
  lemma {:induction false} DrainReleases(s: System, i: nat) returns (t: System, actions: seq<Action>)
    requires Inv(s) && i < |s.threads| && (s.threads[i].Counting? || s.threads[i].Releasing?)
    ensures Run(s, actions, t) && t.use.Free? && |t.threads| == |s.threads|
    ensures forall k :: 0 <= k < |s.threads| && k != i ==> t.threads[k] == s.threads[k]
  {
    assert Fits(s, s.threads[i]);
    if s.threads[i].Counting? {
      t := Next(Next(s, Count(i)), ReleaseAll(i, false));
      Two(s, Count(i), ReleaseAll(i, false));
      actions := [Count(i)] + [ReleaseAll(i, false)];
    } else {
      t := Next(s, ReleaseAll(i, false));
      Then(s, ReleaseAll(i, false), [], t);
      actions := [ReleaseAll(i, false)];
    }
  }

  /** A lock it would see given up before it looks makes a difference. */
  lemma {:induction false} GivenUpBeforeLook(s: System, j: nat, k: nat, o: Outcome)
    requires Inv(s) && j < |s.threads| && s.threads[j].Looking? && !s.use.Free? && Alone(s, s.threads[j]) == o
    requires k < |s.threads| && s.threads[k].Idle?
    requires s.inFlight > 0 || WillRelease(s)
    ensures !SameAnswer(s, o)
  {
    var t, actions;
    if s.inFlight > 0 {
      t, actions := IdleReleases(s, k);
    } else {
      var i :| 0 <= i < |s.threads| && (s.threads[i].Counting? || s.threads[i].Releasing?);
      t, actions := DrainReleases(s, i);
    }
    assert t.threads[j] == s.threads[j];
    TellsAfter(s, actions, t, j, o);
  }

  lemma {:induction false} UnsteadyTells(s: System, j: nat, k: nat, o: Outcome)
    requires Inv(s) && Pending(s, j) && Alone(s, s.threads[j]) == o && !Steady(s, s.threads[j])
    requires k < |s.threads| && s.threads[k].Idle?
    ensures !SameAnswer(s, o)
  {
    var p := s.threads[j];
    if p.Looking? {
      if s.use.Free? { TakenBeforeLook(s, [], s, j, o); } else { GivenUpBeforeLook(s, j, k, o); }
    } else if p.Reporting? || p.LettingGo? {
      TakenAfterLetGo(s, j, o);
    } else {
      CountersMove(s, j, o);
    }
  }

  /**
    A shutdown has returned `o`. Every later one is answered with `o`, in every continuation, exactly
    when each shutdown still pending would store `o` if left to itself and nobody can change that.
  */
  lemma {:induction false} LaterShutdownsAgree(s: System, o: Outcome, k: nat)
    requires Inv(s) && s.outcome == Some(o) && k < |s.threads| && s.threads[k].Idle?
    ensures SameAnswer(s, o) <==> Agreed(s, o)
  {
    if Agreed(s, o) {
      forall actions, t, i: nat | Run(s, actions, t) && Enabled(t, Call(i, true))
        ensures Next(t, Call(i, true)).threads[i] == Returned(true, o)
      {
        RunKeepsAgreed(s, actions, t, o);
      }
    } else {
      var j :| 0 <= j < |s.threads| && s.threads[j].ShutdownPending() && !(Alone(s, s.threads[j]) == o && Steady(s, s.threads[j]));
      assert Fits(s, s.threads[j]);
      if Alone(s, s.threads[j]) != o {
        TellsAfter(s, [], s, j, o);
      } else {
        UnsteadyTells(s, j, k, o);
      }
    }
  }

  // ---------------------------------------------------------------- overlapping shutdowns

  /** One query admitted, two shutdowns past their wait, a third thread idle. */
  function Overlap(): System {
    System(false, true, 1, 0, 0, None, Free, [Admitted, Counting(true, 1), Counting(true, 1), Idle], 1, false)
  }

  lemma {:induction false} OverlapCalled() returns (s: System, t: System, actions: seq<Action>)
    ensures Initial(s) && Run(s, actions, t)
    ensures t == System(false, false, 1, 0, 0, None, Free, [Admitted, Called(true), Called(true), Idle], 1, false)
  {
    s := System(false, false, 0, 0, 0, None, Free, [Idle, Idle, Idle, Idle], 0, false);
    var s1 := Next(s, Admit(0));
    var s2 := Next(s1, Call(1, true));
    t := Next(s2, Call(2, true));
    Then(s2, Call(2, true), [], t);
    Then(s1, Call(1, true), [Call(2, true)], t);
    actions := [Call(1, true)] + [Call(2, true)];
    Then(s, Admit(0), actions, t);
    actions := [Admit(0)] + actions;
  }

  lemma {:induction false} OverlapWaits(s: System) returns (t: System, actions: seq<Action>)
    requires s == System(false, false, 1, 0, 0, None, Free, [Admitted, Called(true), Called(true), Idle], 1, false)
    ensures Run(s, actions, t)
    ensures t == System(false, true, 1, 0, 0, None, Free, [Admitted, Counting(true, 1), Called(true), Idle], 1, false)
  {
    var s1 := Next(s, Begin(1, false));
    t := Next(s1, WaitEnds(1));
    Then(s1, WaitEnds(1), [], t);
    Then(s, Begin(1, false), [WaitEnds(1)], t);
    actions := [Begin(1, false)] + [WaitEnds(1)];
  }

  lemma {:induction false} OverlapReached() returns (s: System, actions: seq<Action>)
    ensures Initial(s) && Run(s, actions, Overlap())
  {
    var t, first;
    s, t, first := OverlapCalled();
    var u, second := OverlapWaits(t);
    var s1 := Next(u, Begin(2, false));
    assert Next(s1, WaitEnds(2)).threads == Overlap().threads;
    Then(s1, WaitEnds(2), [], Overlap());
    Then(u, Begin(2, false), [WaitEnds(2)], Overlap());
    var third := [Begin(2, false)] + [WaitEnds(2)];
    RunConcat(s, first, t, second, u);
    RunConcat(s, first + second, u, third, Overlap());
    actions := first + second + third;
  }

  lemma {:induction false} QueryEnds(s: System) returns (actions: seq<Action>, t: System)
    requires !s.hasGuard && s.inFlight == 1 && |s.threads| == 4 && s.threads[0].Admitted?
    ensures Run(s, actions, t)
    ensures t == s.(threads := s.threads[0 := Idle], inFlight := 0, finished := s.finished + 1)
  {
    var s1 := Next(s, Body(0));
    t := Next(s1, Finish(0));
    assert t.threads == s.threads[0 := Idle];
    Then(s1, Finish(0), [], t);
    Then(s, Body(0), [Finish(0)], t);
    actions := [Body(0)] + [Finish(0)];
  }

  lemma {:induction false} SecondEnds(mid: System) returns (later: seq<Action>, end: System)
    requires !mid.hasGuard && mid.use.Free? && mid.inFlight == 1 && mid.finished == 0 && mid.cancelled == 1
    requires |mid.threads| == 4 && mid.threads[0].Admitted? && mid.threads[2] == Counting(true, 1) && mid.threads[3].Idle?
    ensures Run(mid, later, end) && |end.threads| == 4
    ensures end.threads[3] == Returned(true, Outcome(false, 1, 1, 1, false))
    ensures end.admitted == mid.admitted && end.cancelled == 2
  {
    var q, u := QueryEnds(mid);
    var b := ShutdownEnds(u, 2);
    var v := Ended(u, 2);
    end := Next(v, Call(3, true));
    Then(v, Call(3, true), [], end);
    RunConcat(mid, q, u, b, v);
    RunConcat(mid, q + b, v, [Call(3, true)], end);
    later := q + b + [Call(3, true)];
  }

  /**
    Overlapping shutdowns are not settled by the first: one may return, a later call be answered
    with another outcome, and the one query both gave up on be counted as cancelled twice.
  */
  lemma {:induction false} OverlappingShutdownsDisagree() returns (s: System, first: seq<Action>, mid: System, later: seq<Action>, end: System)
    ensures Initial(s) && Run(s, first, mid) && Run(mid, later, end)
    ensures |mid.threads| == |end.threads| == 4
    ensures mid.threads[1].Returned? && mid.threads[1].shut && mid.outcome == Some(mid.threads[1].o)
    ensures mid.threads[3].Idle? && end.threads[3].Returned? && end.threads[3].shut
    ensures end.threads[3].o != mid.threads[1].o
    ensures end.admitted == 1 && end.cancelled == 2
  {
    var start, a;
    s, start := OverlapReached();
    a := ShutdownEnds(Overlap(), 1);
    mid := Ended(Overlap(), 1);
    RunConcat(s, start, Overlap(), a, mid);
    first := start + a;
    later, end := SecondEnds(mid);
  }
}
