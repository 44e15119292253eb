/**
  Any number of processes sharing the two guard files of one solution. A process asks for a lock
  under the checks of `GuardEngine.Refusal`, waits, and is granted it when nobody else holds it in
  a clashing mode; it may stop waiting at any moment, release in any order, and crash.

  `L` is the content the locks protect. Nothing but `Write` changes it, and `Write` needs the data
  lock exclusively.
*/
module GuardProtocol {
  import opened Wrappers
  import opened Ordering
  import opened GuardPlatform
  import opened GuardEngine

  datatype Proc = Proc(held: seq<Held>, waiting: Option<Spec>, closed: bool)

  datatype System<L> = System(procs: seq<Proc>, lane: L)

  datatype Action<L> =
    | Request(p: nat, want: Spec)
    | Grant(p: nat, handle: nat)
    | GiveUp(p: nat)
    | Release(p: nat, i: nat)
    | Close(p: nat)
    | Reopen(p: nat)
    | Crash(p: nat)
    | Write(p: nat, lane: L)

  /** Two locks that two processes must not hold at once. */
  predicate Clash(x: Spec, y: Spec) {
    x.name == y.name && (x.mode == Exclusive || y.mode == Exclusive)
  }

  predicate Has(proc: Proc, x: Spec) {
    exists i :: 0 <= i < |proc.held| && proc.held[i].spec == x
  }

  ghost predicate HasClashing(proc: Proc, want: Spec) {
    exists x :: Has(proc, x) && Clash(x, want)
  }

  /** `p` waits for a lock that `q` holds in a clashing mode. */
  ghost predicate Waits<L>(s: System<L>, p: nat, q: nat) {
    && p < |s.procs| && q < |s.procs| && p != q
    && s.procs[p].waiting.Some?
    && HasClashing(s.procs[q], s.procs[p].waiting.value)
  }

  ghost predicate Blocked<L>(s: System<L>, p: nat) {
    exists q: nat :: Waits(s, p, q)
  }

  ghost predicate Enabled<L>(s: System<L>, a: Action<L>) {
    && a.p < |s.procs|
    && var proc := s.procs[a.p];
    match a
    case Request(_, want) => proc.waiting.None? && Refusal(proc.closed, proc.held, want).None?
    case Grant(p, _) => proc.waiting.Some? && !Blocked(s, p)
    case GiveUp(_) => proc.waiting.Some?
    case Release(_, i) => proc.waiting.None? && i < |proc.held|
    case Close(_) => proc.waiting.None?
    case Reopen(_) => proc.closed
    case Crash(_) => true
    case Write(_, _) => proc.waiting.None? && Has(proc, Spec(Data, Exclusive))
  }

  function Moved<L>(proc: Proc, a: Action<L>): Proc {
    match a
    case Request(_, want) => proc.(waiting := Some(want))
    case Grant(_, h) =>
      if proc.waiting.Some? then Proc(proc.held + [Held(proc.waiting.value, h)], None, proc.closed) else proc
    case GiveUp(_) => proc.(waiting := None)
    case Release(_, i) => if i < |proc.held| then proc.(held := Undo(proc.held, i)) else proc
    case Close(_) => Proc([], None, true)
    case Reopen(_) => Proc([], None, false)
    case Crash(_) => Proc([], None, true)
    case Write(_, _) => proc
  }

  function Next<L>(s: System<L>, a: Action<L>): System<L> {
    if a.p >= |s.procs| then s
    else System(s.procs[a.p := Moved(s.procs[a.p], a)], if a.Write? then a.lane else s.lane)
  }

  /** A run: the states passed through, and the action between each two of them. */
  ghost predicate Run<L>(states: seq<System<L>>, actions: seq<Action<L>>) {
    && |states| == |actions| + 1
    && forall i :: 0 <= i < |actions| ==> Enabled(states[i], actions[i]) && states[i + 1] == Next(states[i], actions[i])
  }

  ghost predicate Initial<L>(s: System<L>) {
    forall p :: 0 <= p < |s.procs| ==> s.procs[p].held == [] && s.procs[p].waiting.None?
  }

  // ---------------------------------------------------------------- safety

  /** What one process keeps by itself: the acquisition order, also of the lock it waits for. */
  ghost predicate Orderly(proc: Proc) {
    && Ascending(proc.held)
    && (proc.waiting.Some? ==> Refusal(proc.closed, proc.held, proc.waiting.value).None?)
  }

  /** No two processes hold clashing locks. */
  ghost predicate Exclusion<L>(s: System<L>) {
    forall p, q, x, y :: 0 <= p < |s.procs| && 0 <= q < |s.procs| && p != q ==>
      Has(s.procs[p], x) && Has(s.procs[q], y) ==> !Clash(x, y)
  }

  ghost predicate Inv<L>(s: System<L>) {
    && (forall p :: 0 <= p < |s.procs| ==> Orderly(s.procs[p]))
    && Exclusion(s)
  }

  lemma {:induction false} HasAfterGrow(held: seq<Held>, h: Held, waiting: Option<Spec>, closed: bool, x: Spec)
    ensures Has(Proc(held + [h], waiting, closed), x) <==> Has(Proc(held, waiting, closed), x) || x == h.spec
  {
    var more := held + [h];
    if x == h.spec { assert more[|held|].spec == x; }
    if Has(Proc(held, waiting, closed), x) {
      var i :| 0 <= i < |held| && held[i].spec == x;
      assert more[i].spec == x;
    }
  }

  lemma {:induction false} HasAfterUndo(held: seq<Held>, i: nat, waiting: Option<Spec>, closed: bool, x: Spec)
    requires i < |held| && Has(Proc(Undo(held, i), waiting, closed), x)
    ensures Has(Proc(held, waiting, closed), x)
  {
    var u := Undo(held, i);
    var k :| 0 <= k < |u| && u[k].spec == x;
    assert held[if k < i then k else k + 1].spec == x;
  }

  lemma {:induction false} MovedOrderly<L>(s: System<L>, a: Action<L>)
    requires Enabled(s, a) && Orderly(s.procs[a.p])
    ensures Orderly(Moved(s.procs[a.p], a))
  {
    var proc := s.procs[a.p];
    if a.Grant? {
      RefusalIsExact(proc.closed, proc.held, proc.waiting.value, a.handle);
    } else if a.Release? {
      UndoKeepsOrder(proc.held, a.i);
    }
  }

  /** A step brings in no lock but the one granted. */
  lemma {:induction false} MovedHas<L>(s: System<L>, a: Action<L>, x: Spec)
    requires Enabled(s, a) && Has(Moved(s.procs[a.p], a), x)
    ensures Has(s.procs[a.p], x) || (a.Grant? && x == s.procs[a.p].waiting.value)
  {
    var proc := s.procs[a.p];
    if a.Grant? {
      HasAfterGrow(proc.held, Held(proc.waiting.value, a.handle), None, proc.closed, x);
      assert Has(Proc(proc.held, None, proc.closed), x) ==> Has(proc, x);
    } else if a.Release? {
      HasAfterUndo(proc.held, a.i, proc.waiting, proc.closed, x);
    }
  }

  lemma {:induction false} NoNewClash<L>(s: System<L>, a: Action<L>, q: nat, x: Spec, y: Spec)
    requires Exclusion(s) && Enabled(s, a) && q < |s.procs| && q != a.p
    requires Has(Moved(s.procs[a.p], a), x) && Has(s.procs[q], y)
    ensures !Clash(x, y) && !Clash(y, x)
  {
    MovedHas(s, a, x);
    if !Has(s.procs[a.p], x) {
      assert !Waits(s, a.p, q);
      assert !Clash(y, s.procs[a.p].waiting.value);
    }
  }

  lemma {:induction false} StepKeepsInv<L>(s: System<L>, a: Action<L>)
    requires Inv(s) && Enabled(s, a)
    ensures Inv(Next(s, a))
  {
    var t := Next(s, a);
    MovedOrderly(s, a);
    forall p, q, x, y | 0 <= p < |t.procs| && 0 <= q < |t.procs| && p != q && Has(t.procs[p], x) && Has(t.procs[q], y)
      ensures !Clash(x, y)
    {
      if p == a.p {
        NoNewClash(s, a, q, x, y);
      } else if q == a.p {
        NoNewClash(s, a, p, y, x);
      }
    }
  }

  lemma {:induction false} RunKeepsInv<L>(states: seq<System<L>>, actions: seq<Action<L>>, i: nat)
    requires Run(states, actions) && Inv(states[0]) && i < |states|
    ensures Inv(states[i])
  {
    if i > 0 {
      RunKeepsInv(states, actions, i - 1);
      StepKeepsInv(states[i - 1], actions[i - 1]);
      assert states[i - 1 + 1] == states[i];
    }
  }

  lemma {:induction false} OneMode(proc: Proc, x: Spec, y: Spec)
    requires Orderly(proc) && Has(proc, x) && Has(proc, y) && x.name == y.name
    ensures x == y
  {
    var i :| 0 <= i < |proc.held| && proc.held[i].spec == x;
    var j :| 0 <= j < |proc.held| && proc.held[j].spec == y;
  }

  lemma {:induction false} AloneIn<L>(s: System<L>, p: nat, q: nat, name: LockName, mode: Mode)
    requires Inv(s) && p < |s.procs| && q < |s.procs|
    requires Has(s.procs[p], Spec(name, Exclusive)) && Has(s.procs[q], Spec(name, mode))
    ensures p == q && mode == Exclusive
  {
    assert Clash(Spec(name, Exclusive), Spec(name, mode));
    if p == q { OneMode(s.procs[p], Spec(name, Exclusive), Spec(name, mode)); }
  }

  /** Whatever the processes do, in every state of every run an exclusive holder holds alone. */
  lemma {:induction false} ExclusiveHolderIsAlone<L>(
    states: seq<System<L>>, actions: seq<Action<L>>, i: nat, p: nat, q: nat, name: LockName, mode: Mode)
    requires Run(states, actions) && Initial(states[0]) && i < |states|
    requires p < |states[i].procs| && q < |states[i].procs|
    requires Has(states[i].procs[p], Spec(name, Exclusive)) && Has(states[i].procs[q], Spec(name, mode))
    ensures p == q && mode == Exclusive
  {
    RunKeepsInv(states, actions, i);
    AloneIn(states[i], p, q, name, mode);
  }

  // ---------------------------------------------------------------- no deadlock

  /** Who waits for admission holds nothing, and who waits for data holds at most admission. */
  lemma {:induction false} WaiterHoldsOnlyEarlier(proc: Proc, x: Spec)
    requires Orderly(proc) && proc.waiting.Some? && Has(proc, x)
    ensures Position(x.name) < Position(proc.waiting.value.name) <= 1
  {
    RefusalIsExact(proc.closed, proc.held, proc.waiting.value, 0);
    var more := proc.held + [Held(proc.waiting.value, 0)];
    var i :| 0 <= i < |proc.held| && proc.held[i].spec == x;
    assert more[i].spec == x && more[|proc.held|].spec == proc.waiting.value;
    assert Ascending(more);
  }

  /** Along a wait, what is waited for moves forward in the acquisition order. */
  lemma {:induction false} WaitsForward<L>(s: System<L>, p: nat, q: nat)
    requires Inv(s) && Waits(s, p, q) && s.procs[q].waiting.Some?
    ensures s.procs[p].waiting.value.name == Admission && s.procs[q].waiting.value.name == Data
  {
    var x :| Has(s.procs[q], x) && Clash(x, s.procs[p].waiting.value);
    WaiterHoldsOnlyEarlier(s.procs[q], x);
  }

  ghost predicate WaitChain<L>(s: System<L>, chain: seq<nat>) {
    forall i :: 0 <= i < |chain| - 1 ==> Waits(s, chain[i], chain[i + 1])
  }

  /** Every wait chain is at most two waits long; in particular none closes into a circle. */
  lemma {:induction false} WaitChainsAreShort<L>(s: System<L>, chain: seq<nat>)
    requires Inv(s) && WaitChain(s, chain)
    ensures |chain| <= 3
  {
    if |chain| > 3 {
      assert Waits(s, chain[1], chain[1 + 1]) && Waits(s, chain[2], chain[2 + 1]);
      assert Waits(s, chain[0], chain[0 + 1]);
      WaitsForward(s, chain[0], chain[1]);
      WaitsForward(s, chain[1], chain[2]);
      assert false;
    }
  }

  /**
    While anyone waits, a grant or a release is possible, and by somebody else if the waiter itself
    is blocked: no state waits on a timeout to get further.
  */
  lemma {:induction false} SomeoneCanMove<L>(s: System<L>, p: nat) returns (a: Action<L>)
    requires Inv(s) && p < |s.procs| && s.procs[p].waiting.Some?
    ensures Enabled(s, a) && (a.Grant? || a.Release?)
    ensures if Blocked(s, p) then a.p != p else a == Grant(p, 0)
  {
    a := Grant(p, 0);
    if Blocked(s, p) {
      var q: nat :| Waits(s, p, q);
      a := Freeing(s, q, s.procs[p].waiting.value);
      if s.procs[q].waiting.Some? {
        WaitsForward(s, p, q);
        a := Grant(q, 0);
        if Blocked(s, q) {
          var r: nat :| Waits(s, q, r);
          if s.procs[r].waiting.Some? { WaitsForward(s, q, r); assert false; }
          a := Freeing(s, r, s.procs[q].waiting.value);
        }
      }
    }
  }

  lemma {:induction false} Freeing<L>(s: System<L>, q: nat, want: Spec) returns (a: Action<L>)
    requires q < |s.procs| && HasClashing(s.procs[q], want)
    ensures a.Release? && a.p == q && (s.procs[q].waiting.None? ==> Enabled(s, a))
  {
    var x :| Has(s.procs[q], x) && Clash(x, want);
    var i :| 0 <= i < |s.procs[q].held| && s.procs[q].held[i].spec == x;
    a := Release(q, i);
  }

  /** Locks held, and twice the locks waited for: every grant and every release makes it smaller. */
  function Pending(procs: seq<Proc>): nat {
    if procs == [] then 0
    else Pending(procs[..|procs| - 1]) + Load(procs[|procs| - 1])
  }

  function Load(proc: Proc): nat {
    |proc.held| + if proc.waiting.Some? then 2 else 0
  }

  lemma {:induction false} PendingUpdate(procs: seq<Proc>, p: nat, proc: Proc)
    requires p < |procs|
    ensures Pending(procs[p := proc]) == Pending(procs) - Load(procs[p]) + Load(proc)
  {
    var last := |procs| - 1;
    if p == last {
      assert procs[p := proc][..last] == procs[..last];
    } else {
      assert procs[p := proc][..last] == procs[..last][p := proc];
      PendingUpdate(procs[..last], p, proc);
    }
  }

  lemma {:induction false} RunFrom<L>(s: System<L>, a: Action<L>, states: seq<System<L>>, actions: seq<Action<L>>)
    requires Enabled(s, a) && Run(states, actions) && states[0] == Next(s, a)
    ensures Run([s] + states, [a] + actions)
  {
    var more, acts := [s] + states, [a] + actions;
    forall i | 0 <= i < |acts| ensures Enabled(more[i], acts[i]) && more[i + 1] == Next(more[i], acts[i]) {
      if i > 0 { assert more[i] == states[i - 1] && acts[i] == actions[i - 1] && more[i + 1] == states[i]; }
    }
  }

  /** From every state, whoever waits can be granted by grants and releases alone. */
  lemma {:induction false} EveryWaitCanBeServed<L>(s: System<L>, p: nat) returns (states: seq<System<L>>, actions: seq<Action<L>>)
    requires Inv(s) && p < |s.procs| && s.procs[p].waiting.Some?
    ensures Run(states, actions) && states[0] == s && actions != []
    ensures forall i :: 0 <= i < |actions| ==> actions[i].Grant? || actions[i].Release?
    ensures actions[|actions| - 1] == Grant(p, 0)
    decreases Pending(s.procs)
  {
    var a := SomeoneCanMove(s, p);
    var t := Next(s, a);
    if a == Grant(p, 0) {
      states, actions := [t], [];
    } else {
      StepKeepsInv(s, a);
      PendingUpdate(s.procs, a.p, Moved(s.procs[a.p], a));
      states, actions := EveryWaitCanBeServed(t, p);
    }
    RunFrom(s, a, states, actions);
    states, actions := [s] + states, [a] + actions;
  }

  // ---------------------------------------------------------------- no overtaking

  /** Readers and publishers ask for data only while they hold admission. */
  ghost predicate Disciplined<L>(s: System<L>, a: Action<L>) {
    a.Request? && a.want.name == Data && a.p < |s.procs| ==>
      exists mode :: Has(s.procs[a.p], Spec(Admission, mode))
  }

  ghost predicate DisciplinedRun<L>(states: seq<System<L>>, actions: seq<Action<L>>) {
    && Run(states, actions)
    && forall i :: 0 <= i < |actions| ==> Disciplined(states[i], actions[i])
  }

  /**
    The two spec lists `GuardEngine` acquires keep that discipline: a process that has taken the
    first `i` locks of either and asks for the next one asks for data only behind admission.
  */
  lemma {:induction false} ReadersAndPublishersAreDisciplined<L>(s: System<L>, p: nat, specs: seq<Spec>, i: nat)
    requires specs == READER_SPECS || specs == PUBLISHER_SPECS
    requires p < |s.procs| && i < |specs| && Specs(s.procs[p].held) == specs[..i]
    ensures Disciplined(s, Request(p, specs[i]))
  {
    if specs[i].name == Data {
      assert i == 1 && specs[..i][0] == specs[0];
      assert s.procs[p].held[0].spec == Specs(s.procs[p].held)[0];
      assert Has(s.procs[p], Spec(Admission, specs[0].mode));
    }
  }

  /** Under that discipline, whoever waits for data holds admission. */
  ghost predicate DataBehindAdmission<L>(s: System<L>) {
    forall p :: 0 <= p < |s.procs| && s.procs[p].waiting.Some? && s.procs[p].waiting.value.name == Data ==>
      exists mode :: Has(s.procs[p], Spec(Admission, mode))
  }

  ghost predicate HoldsData<L>(s: System<L>, q: nat) {
    q < |s.procs| && exists mode :: Has(s.procs[q], Spec(Data, mode))
  }

  /** `w` is a publisher between its two acquisitions. */
  ghost predicate Closing<L>(s: System<L>, w: nat) {
    w < |s.procs| && Has(s.procs[w], Spec(Admission, Exclusive)) && !HoldsData(s, w)
  }

  lemma {:induction false} StepKeepsDiscipline<L>(s: System<L>, a: Action<L>)
    requires Enabled(s, a) && Disciplined(s, a) && DataBehindAdmission(s)
    ensures DataBehindAdmission(Next(s, a))
  {
    var t := Next(s, a);
    forall p | 0 <= p < |t.procs| && t.procs[p].waiting.Some? && t.procs[p].waiting.value.name == Data
      ensures exists mode :: Has(t.procs[p], Spec(Admission, mode))
    {
      if p == a.p {
        var mode :| Has(s.procs[p], Spec(Admission, mode));
        assert Has(t.procs[p], Spec(Admission, mode));
      } else {
        assert t.procs[p] == s.procs[p];
      }
    }
  }

  lemma {:induction false} StepTakesNoData<L>(s: System<L>, a: Action<L>, w: nat, q: nat)
    requires Inv(s) && DataBehindAdmission(s) && Enabled(s, a) && Closing(s, w) && Closing(Next(s, a), w)
    requires HoldsData(Next(s, a), q)
    ensures HoldsData(s, q)
  {
    var t := Next(s, a);
    var mode :| Has(t.procs[q], Spec(Data, mode));
    if q == a.p {
      MovedHas(s, a, Spec(Data, mode));
      if a.Grant? && s.procs[q].waiting.value == Spec(Data, mode) {
        var m :| Has(s.procs[q], Spec(Admission, m));
        assert q != w;
        assert Clash(Spec(Admission, Exclusive), Spec(Admission, m));
        assert false;
      }
    }
  }

  lemma {:induction false} DisciplineStays<L>(states: seq<System<L>>, actions: seq<Action<L>>, i: nat)
    requires DisciplinedRun(states, actions) && DataBehindAdmission(states[0]) && i < |states|
    ensures DataBehindAdmission(states[i])
  {
    if i > 0 {
      DisciplineStays(states, actions, i - 1);
      assert Disciplined(states[i - 1], actions[i - 1]) && states[i - 1 + 1] == states[i];
      StepKeepsDiscipline(states[i - 1], actions[i - 1]);
    }
  }

  /**
    While a publisher holds admission exclusively and has not taken data, no process takes data:
    along any run, whoever holds data at some point held it at the start.
  */
  lemma {:induction false} NoOvertaking<L>(states: seq<System<L>>, actions: seq<Action<L>>, w: nat, q: nat, i: nat)
    requires DisciplinedRun(states, actions) && Inv(states[0]) && DataBehindAdmission(states[0])
    requires forall j :: 0 <= j < |states| ==> Closing(states[j], w)
    requires i < |states| && HoldsData(states[i], q)
    ensures HoldsData(states[0], q)
  {
    if i > 0 {
      NobodyNewHolds(states, actions, w, q, i);
      NoOvertaking(states, actions, w, q, i - 1);
    }
  }

  lemma {:induction false} NobodyNewHolds<L>(states: seq<System<L>>, actions: seq<Action<L>>, w: nat, q: nat, i: nat)
    requires DisciplinedRun(states, actions) && Inv(states[0]) && DataBehindAdmission(states[0])
    requires 0 < i < |states| && Closing(states[i - 1], w) && Closing(states[i], w) && HoldsData(states[i], q)
    ensures HoldsData(states[i - 1], q)
  {
    RunKeepsInv(states, actions, i - 1);
    DisciplineStays(states, actions, i - 1);
    assert Disciplined(states[i - 1], actions[i - 1]) && states[i - 1 + 1] == states[i];
    StepTakesNoData(states[i - 1], actions[i - 1], w, q);
  }

  /** The publisher's own wait for data ends exactly when the last of those holders is gone. */
  lemma {:induction false} PublisherGoesWhenReadersGone<L>(s: System<L>, w: nat)
    requires Inv(s) && Closing(s, w) && s.procs[w].waiting == Some(Spec(Data, Exclusive))
    ensures Enabled(s, Grant(w, 0)) <==> forall q: nat :: !HoldsData(s, q)
  {
    forall q: nat | HoldsData(s, q) ensures !Enabled(s, Grant(w, 0)) {
      var mode :| Has(s.procs[q], Spec(Data, mode));
      assert Clash(Spec(Data, mode), Spec(Data, Exclusive));
      assert Waits(s, w, q);
    }
    if !Enabled(s, Grant(w, 0)) {
      var q: nat :| Waits(s, w, q);
      var x :| Has(s.procs[q], x) && Clash(x, Spec(Data, Exclusive));
      assert Has(s.procs[q], Spec(Data, x.mode));
      assert HoldsData(s, q);
    }
  }

  // ---------------------------------------------------------------- isolation

  lemma {:induction false} StepKeepsLane<L>(s: System<L>, a: Action<L>, r: nat)
    requires Inv(s) && Enabled(s, a) && r < |s.procs| && Has(s.procs[r], Spec(Data, Shared))
    ensures Next(s, a).lane == s.lane
  {
    if a.Write? { AloneIn(s, a.p, r, Data, Shared); }
  }

  /** While one process holds data shared, from one state of a run to another, the content stands still. */
  lemma {:induction false} LaneStandsStill<L>(states: seq<System<L>>, actions: seq<Action<L>>, r: nat, first: nat, k: nat)
    requires Run(states, actions) && Inv(states[0]) && first <= k < |states|
    requires forall i :: first <= i < k ==> r < |states[i].procs| && Has(states[i].procs[r], Spec(Data, Shared))
    ensures states[k].lane == states[first].lane
    decreases k
  {
    if first < k {
      LaneStandsStill(states, actions, r, first, k - 1);
      RunKeepsInv(states, actions, k - 1);
      StepKeepsLane(states[k - 1], actions[k - 1], r);
      assert states[k - 1 + 1] == states[k];
    }
  }
}
