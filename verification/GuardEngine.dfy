/**
  One process's side of the solution guard: ordered acquisition of two locks with a bounded wait,
  early release, retry from the start, and release of everything on failure.
*/
module GuardEngine {
  import opened Wrappers
  import opened Ordering
  import opened RetrySchedule
  import opened GuardPlatform

  /** `Undeclared` stands for every name that is not one of the two guard files. */
  datatype LockName = Admission | Data | Undeclared

  datatype GuardError =
    | UnknownLock | GuardClosed | LockUpgrade | RecursiveAcquire | OrderViolation
    | OpenFailed | IdentityUnreadable | IdentityMismatch | LockFailed
    | NotHeld | UnlockFailed | ReleaseFailed | InvalidAttempts | InvalidTimeout
    | Timeout | Cancelled
  {
    /** The two failures after which `ordered` releases everything and tries again. */
    predicate Retried() { Timeout? || Cancelled? }

    predicate OpenFault() { OpenFailed? || IdentityUnreadable? || IdentityMismatch? }
    predicate WaitFault() { Timeout? || Cancelled? || LockFailed? }
  }

  const IDENTITY_OPEN_ATTEMPTS := 3
  const IDENTITY_REOPEN_PAUSE_MS := 10.0

  function Position(name: LockName): nat {
    match name case Admission => 0 case Data => 1 case Undeclared => 2
  }

  datatype Spec = Spec(name: LockName, mode: Mode)
  datatype Held = Held(spec: Spec, handle: nat)

  function Specs(held: seq<Held>): (r: seq<Spec>)
    ensures |r| == |held|
  {
    seq(|held|, i requires 0 <= i < |held| => held[i].spec)
  }

  predicate Names(specs: seq<Spec>, name: LockName) {
    exists i :: 0 <= i < |specs| && specs[i].name == name
  }

  /** The place of `name` among the held locks, or none. */
  function Find(held: seq<Held>, name: LockName): (r: Option<nat>)
    ensures r.Some? ==> r.value < |held| && held[r.value].spec.name == name
    ensures r.None? ==> forall i :: 0 <= i < |held| ==> held[i].spec.name != name
  {
    if held == [] then None
    else if held[0].spec.name == name then Some(0)
    else match Find(held[1..], name)
      case Some(i) =>
        assert held[1..][i] == held[i + 1];
        Some(i + 1)
      case None =>
        assert forall i :: 1 <= i < |held| ==> held[i] == held[1..][i - 1];
        None
  }

  /** Strictly increasing positions: no name twice, and the declared acquisition order. */
  ghost predicate Ascending(held: seq<Held>) {
    && (forall i :: 0 <= i < |held| ==> held[i].spec.name != Undeclared)
    && (forall i, j :: 0 <= i < j < |held| ==> Position(held[i].spec.name) < Position(held[j].spec.name))
  }

  /** The handles in `held`, latest first: the order in which they must be given up. */
  function Handles(held: seq<Held>): (r: seq<nat>)
    ensures |r| == |held|
  {
    seq(|held|, i requires 0 <= i < |held| => held[|held| - 1 - i].handle)
  }

  function Undo(held: seq<Held>, i: nat): seq<Held>
    requires i < |held|
  {
    held[..i] + held[i + 1..]
  }

  lemma {:induction false} HandlesUndo(held: seq<Held>, i: nat)
    requires i < |held|
    ensures multiset(Handles(held)) == multiset(Handles(Undo(held, i))) + multiset{held[i].handle}
  {
    assert Handles(held) == Handles(held[i + 1..]) + [held[i].handle] + Handles(held[..i]);
    assert Handles(Undo(held, i)) == Handles(held[i + 1..]) + Handles(held[..i]);
  }

  lemma {:induction false} HandlesGrow(held: seq<Held>, h: Held)
    ensures multiset(Handles(held + [h])) == multiset(Handles(held)) + multiset{h.handle}
  {
    assert Handles(held + [h]) == [h.handle] + Handles(held);
  }

  function Dropped(held: seq<Held>, name: LockName): seq<Held> {
    match Find(held, name) case None => held case Some(i) => Undo(held, i)
  }

  function HandleOf(held: seq<Held>, name: LockName): seq<nat> {
    match Find(held, name) case None => [] case Some(i) => [held[i].handle]
  }

  /** The handles in acquisition order. */
  function InOrder(held: seq<Held>): (r: seq<nat>)
    ensures |r| == |held|
  {
    seq(|held|, i requires 0 <= i < |held| => held[i].handle)
  }

  /** What is left of `held` after the first `n` locks in `names` were released one by one. */
  function Leaves(held: seq<Held>, names: seq<LockName>, n: nat): seq<Held>
    requires n <= |names|
  {
    if n == 0 then held else Dropped(Leaves(held, names, n - 1), names[n - 1])
  }

  /** Which handles went by those releases, in order. */
  function Goes(held: seq<Held>, names: seq<LockName>, n: nat): seq<nat>
    requires n <= |names|
  {
    if n == 0 then [] else Goes(held, names, n - 1) + HandleOf(Leaves(held, names, n - 1), names[n - 1])
  }

  /** The order in which one attempt's locks go when the early ones go first. */
  function RoundOrder(held: seq<Held>, early: seq<LockName>): seq<nat> {
    Goes(held, early, |early|) + Handles(Leaves(held, early, |early|))
  }

  /** That order gives up each of them exactly once. */
  lemma {:induction false} RoundOrderIsEach(held: seq<Held>, early: seq<LockName>)
    ensures multiset(RoundOrder(held, early)) == multiset(InOrder(held))
  {
    EachOnce(held, early, |early|);
    HandlesAreAll(held);
  }

  /** What went and what is left are together what was held, handle by handle. */
  ghost predicate Once(went: seq<nat>, left: seq<Held>, held: seq<Held>) {
    multiset(went) + multiset(Handles(left)) == multiset(Handles(held))
  }

  lemma {:induction false} EachOnce(held: seq<Held>, names: seq<LockName>, n: nat)
    requires n <= |names|
    ensures Once(Goes(held, names, n), Leaves(held, names, n), held)
    decreases n
  {
    if n == 0 {
      NothingWent(held);
    } else {
      EachOnce(held, names, n - 1);
      StillOnce(Goes(held, names, n - 1), Leaves(held, names, n - 1), names[n - 1], held);
      UnfoldRelease(held, names, n);
    }
  }

  lemma {:induction false} UnfoldRelease(held: seq<Held>, names: seq<LockName>, n: nat)
    requires 0 < n <= |names|
    ensures Leaves(held, names, n) == Dropped(Leaves(held, names, n - 1), names[n - 1])
    ensures Goes(held, names, n) == Goes(held, names, n - 1) + HandleOf(Leaves(held, names, n - 1), names[n - 1])
  {
  }

  lemma {:induction false} NothingWent(held: seq<Held>)
    ensures Once([], held, held)
  {
  }

  lemma {:induction false} StillOnce(went: seq<nat>, left: seq<Held>, name: LockName, held: seq<Held>)
    requires Once(went, left, held)
    ensures Once(went + HandleOf(left, name), Dropped(left, name), held)
  {
    DropOnce(left, name);
    MoveOver(went, HandleOf(left, name), Handles(Dropped(left, name)), Handles(left));
  }

  lemma {:induction false} MoveOver<T>(a: seq<T>, b: seq<T>, c: seq<T>, d: seq<T>)
    requires multiset(b) + multiset(c) == multiset(d)
    ensures multiset(a + b) + multiset(c) == multiset(a) + multiset(d)
  {
    assert multiset(a + b) == multiset(a) + multiset(b);
  }

  lemma {:induction false} DropOnce(held: seq<Held>, name: LockName)
    ensures multiset(HandleOf(held, name)) + multiset(Handles(Dropped(held, name))) == multiset(Handles(held))
  {
    match Find(held, name) {
      case None =>
      case Some(i) => HandlesUndo(held, i);
    }
  }

  lemma {:induction false} HandlesAreAll(held: seq<Held>)
    ensures multiset(Handles(held)) == multiset(InOrder(held))
  {
    if held == [] {
      assert Handles(held) == InOrder(held);
    } else {
      var n := |held| - 1;
      HandlesAreAll(held[..n]);
      assert held == held[..n] + [held[n]];
      assert Handles(held) == [held[n].handle] + Handles(held[..n]);
      assert InOrder(held) == InOrder(held[..n]) + [held[n].handle];
    }
  }

  /** What remains is what was held, less the named locks. */
  lemma {:induction false} LeavesMeans(held: seq<Held>, names: seq<LockName>, n: nat, h: Held)
    requires Ascending(held) && n <= |names|
    ensures Ascending(Leaves(held, names, n))
    ensures h in Leaves(held, names, n) <==> h in held && h.spec.name !in names[..n]
  {
    if n > 0 {
      LeavesMeans(held, names, n - 1, h);
      DroppedMeans(Leaves(held, names, n - 1), names[n - 1], h);
      PrefixSnoc(names, n - 1);
    }
  }

  lemma {:induction false} DroppedMeans(held: seq<Held>, name: LockName, h: Held)
    requires Ascending(held)
    ensures Ascending(Dropped(held, name))
    ensures h in Dropped(held, name) <==> h in held && h.spec.name != name
  {
    match Find(held, name)
    case None =>
    case Some(i) =>
      UndoKeepsOrder(held, i);
      assert held == held[..i] + [held[i]] + held[i + 1..];
  }

  // ---------------------------------------------------------------- a run of several attempts

  /** The handles taken over all attempts, in order; `took[i]` is what attempt `i` took. */
  function Acquired(took: seq<seq<Held>>): seq<nat> {
    if took == [] then [] else Acquired(took[..|took| - 1]) + InOrder(took[|took| - 1])
  }

  /** What is held when the next attempt starts: what was there before only for the first. */
  function LastBase(base: seq<Held>, took: seq<seq<Held>>): seq<Held> {
    if took == [] then base else []
  }

  /** What the last attempt held when it stopped acquiring. */
  function LastHeld(base: seq<Held>, took: seq<seq<Held>>): seq<Held>
    requires took != []
  {
    LastBase(base, took[..|took| - 1]) + took[|took| - 1]
  }

  /** The handles given up when every one of these attempts released all it held, latest first. */
  function GivenUp(base: seq<Held>, took: seq<seq<Held>>): seq<nat> {
    if took == [] then [] else GivenUp(base, took[..|took| - 1]) + Handles(LastHeld(base, took))
  }

  /** The outcomes that end in the last attempt as it stands: success, and errors passed on as they came. */
  predicate InLastAttempt(r: Result<bool, GuardError>) {
    r.Success? || !(r.error.Retried() || r.error == ReleaseFailed)
  }

  /** Every attempt took its locks in the order of `specs`, from the first. */
  ghost predicate AllPartsOf(took: seq<seq<Held>>, specs: seq<Spec>) {
    forall i :: 0 <= i < |took| ==> Specs(took[i]) <= specs
  }

  lemma {:induction false} AllPartsGrow(took: seq<seq<Held>>, specs: seq<Spec>, taken: seq<Held>)
    requires AllPartsOf(took, specs) && Specs(taken) <= specs
    ensures AllPartsOf(took + [taken], specs)
  {
  }

  /** The first `i` locks of an attempt have been taken, one by one. */
  ghost predicate Acquiring(
    base: seq<Held>, grants0: seq<nat>, specs: seq<Spec>, i: nat, taken: seq<Held>, held: seq<Held>, grants: seq<nat>)
  {
    i <= |specs| && held == base + taken && grants == grants0 + InOrder(taken) && Specs(taken) == specs[..i]
  }

  lemma {:induction false} AcquiredSoFar(
    base: seq<Held>, grants0: seq<nat>, specs: seq<Spec>, i: nat, taken: seq<Held>, held: seq<Held>, grants: seq<nat>)
    requires Acquiring(base, grants0, specs, i, taken, held, grants)
    ensures held == base + taken && grants == grants0 + InOrder(taken)
    ensures Specs(taken) <= specs && (i == |specs| ==> Specs(taken) == specs)
  {
  }

  lemma {:induction false} AcquiringNext(base: seq<Held>, grants0: seq<nat>, specs: seq<Spec>, i: nat, taken: seq<Held>, handle: nat)
    requires i < |specs| && Specs(taken) == specs[..i]
    ensures Acquiring(base, grants0, specs, i + 1, taken + [Held(specs[i], handle)],
                      (base + taken) + [Held(specs[i], handle)], (grants0 + InOrder(taken)) + [handle])
  {
    var h := Held(specs[i], handle);
    assert InOrder(taken + [h]) == InOrder(taken) + [h.handle];
    assert Specs(taken + [h]) == Specs(taken) + [h.spec];
    PrefixSnoc(specs, i);
  }

  /** What a run of attempts that all gave up has taken and given up so far. */
  ghost predicate Traced(base: seq<Held>, grants0: seq<nat>, unlocks0: seq<nat>, took: seq<seq<Held>>, grants: seq<nat>, unlocks: seq<nat>) {
    grants == grants0 + Acquired(took) && unlocks == unlocks0 + GivenUp(base, took)
  }

  /** The same when the last attempt stands, with the first `gone` of its early releases made. */
  ghost predicate TracedIn(
    base: seq<Held>, grants0: seq<nat>, unlocks0: seq<nat>, took: seq<seq<Held>>, early: seq<LockName>, gone: nat,
    grants: seq<nat>, unlocks: seq<nat>, held: seq<Held>)
  {
    && took != [] && gone <= |early|
    && grants == grants0 + Acquired(took)
    && held == Leaves(LastHeld(base, took), early, gone)
    && unlocks == unlocks0 + GivenUp(base, took[..|took| - 1]) + Goes(LastHeld(base, took), early, gone)
  }

  /** A success has every lock of `specs` and has made all the early releases. */
  ghost predicate Entered(r: Result<bool, GuardError>, took: seq<seq<Held>>, specs: seq<Spec>, early: seq<LockName>, gone: nat) {
    r.Success? ==> took != [] && gone == |early| && Specs(took[|took| - 1]) == specs
  }

  /** Where `ordered` stands after the attempts in `took`, the last of which came to `r`. */
  ghost predicate Progress(
    base: seq<Held>, grants0: seq<nat>, unlocks0: seq<nat>, took: seq<seq<Held>>, early: seq<LockName>, gone: nat,
    r: Result<bool, GuardError>, grants: seq<nat>, unlocks: seq<nat>, held: seq<Held>)
  {
    if InLastAttempt(r) then TracedIn(base, grants0, unlocks0, took, early, gone, grants, unlocks, held)
    else Traced(base, grants0, unlocks0, took, grants, unlocks) && held == LastBase(base, took)
  }

  lemma {:induction false} EntryStands(
    base: seq<Held>, grants0: seq<nat>, unlocks0: seq<nat>, took: seq<seq<Held>>, specs: seq<Spec>, early: seq<LockName>, gone: nat,
    r: Result<bool, GuardError>, grants: seq<nat>, unlocks: seq<nat>, held: seq<Held>)
    requires Progress(base, grants0, unlocks0, took, early, gone, r, grants, unlocks, held)
    requires Entered(r, took, specs, early, gone) && r.Success? && base == []
    ensures took != [] && Specs(took[|took| - 1]) == specs && held == Leaves(took[|took| - 1], early, |early|)
  {
    assert LastHeld(base, took) == took[|took| - 1];
  }

  /** What one more attempt makes of it, whether it stands or gave up. */
  lemma {:induction false} AttemptTraced(
    base: seq<Held>, grants0: seq<nat>, unlocks0: seq<nat>, took: seq<seq<Held>>, grants: seq<nat>, unlocks: seq<nat>,
    taken: seq<Held>, early: seq<LockName>, gone: nat, acquired: bool, r: Result<bool, GuardError>, unlocked: seq<nat>, held: seq<Held>)
    requires Traced(base, grants0, unlocks0, took, grants, unlocks)
    requires acquired ==> InLastAttempt(r) && gone <= |early|
    requires acquired ==> held == Leaves(LastBase(base, took) + taken, early, gone)
    requires acquired ==> unlocked == unlocks + Goes(LastBase(base, took) + taken, early, gone)
    requires !acquired && InLastAttempt(r) ==> held == LastBase(base, took) + taken && unlocked == unlocks
    requires !InLastAttempt(r) ==> held == [] && unlocked == unlocks + Handles(LastBase(base, took) + taken)
    ensures Progress(
      base, grants0, unlocks0, took + [taken], early, if acquired then gone else 0, r, grants + InOrder(taken), unlocked, held)
  {
    OneMoreRound(base, grants0, unlocks0, took, taken);
  }

  lemma {:induction false} OneMoreRound(base: seq<Held>, grants: seq<nat>, unlocks: seq<nat>, took: seq<seq<Held>>, taken: seq<Held>)
    ensures var more := took + [taken];
      && more[..|more| - 1] == took
      && LastHeld(base, more) == LastBase(base, took) + taken
      && grants + Acquired(more) == (grants + Acquired(took)) + InOrder(taken)
      && unlocks + GivenUp(base, more) == (unlocks + GivenUp(base, took)) + Handles(LastHeld(base, more))
  {
    var more := took + [taken];
    assert more[..|more| - 1] == took && more[|more| - 1] == taken;
  }

  /** Data then admission is everything that can be held, latest first. */
  lemma {:induction false} LatestFirst(held: seq<Held>)
    requires Ascending(held)
    ensures Dropped(Dropped(held, Data), Admission) == []
    ensures Handles(held) == HandleOf(held, Data) + HandleOf(Dropped(held, Data), Admission)
  {
    AtMostBoth(held);
    if |held| == 2 {
      assert Find(held[1..], Data) == Some(0);
      assert Find(held, Data) == Some(1);
      assert Undo(held, 1) == [held[0]];
    } else if |held| == 1 {
      assert held[1..] == [];
      assert Undo(held, 0) == [];
    }
  }

  /** Why a request is turned down before any file is opened, if it is. */
  function Refusal(closed: bool, held: seq<Held>, want: Spec): (r: Option<GuardError>)
    ensures r.Some? ==> !r.value.Retried() && r.value != ReleaseFailed
  {
    if want.name == Undeclared then Some(UnknownLock)
    else if closed then Some(GuardClosed)
    else match Find(held, want.name)
      case Some(i) => Some(if held[i].spec.mode != want.mode then LockUpgrade else RecursiveAcquire)
      case None =>
        if exists i :: 0 <= i < |held| && Position(held[i].spec.name) > Position(want.name)
        then Some(OrderViolation) else None
  }

  /** The refusal `ordered` meets at once, before it has taken anything. */
  function Blocked(closed: bool, held: seq<Held>, specs: seq<Spec>): (r: Option<GuardError>)
    ensures r.Some? ==> !r.value.Retried()
  {
    if specs == [] then None else Refusal(closed, held, specs[0])
  }

  lemma {:induction false} HoldsByName(held: seq<Held>, want: Spec)
    requires Specs(held) == [want]
    ensures Find(held, want.name).Some?
  {
    assert held[0].spec == Specs(held)[0];
  }

  /**
    The order, upgrade and recursion checks let a request through exactly when taking it keeps the
    acquisition order.
  */
  lemma {:induction false} RefusalIsExact(closed: bool, held: seq<Held>, want: Spec, h: nat)
    requires Ascending(held)
    ensures Refusal(closed, held, want).None? <==> !closed && Ascending(held + [Held(want, h)])
  {
    var more := held + [Held(want, h)];
    if Ascending(more) {
      assert more[|held|] == Held(want, h);
      forall i | 0 <= i < |held| ensures Position(held[i].spec.name) < Position(want.name) {
        assert more[i] == held[i];
      }
    }
    if Refusal(closed, held, want).None? {
      forall i | 0 <= i < |held| ensures Position(held[i].spec.name) < Position(want.name) {
      }
    }
  }

  lemma {:induction false} AnyHandle(held: seq<Held>, want: Spec, h: nat)
    requires Ascending(held + [Held(want, 0)])
    ensures Ascending(held + [Held(want, h)])
  {
    var one, other := held + [Held(want, 0)], held + [Held(want, h)];
    assert forall i :: 0 <= i < |one| ==> one[i].spec == other[i].spec;
  }

  lemma {:induction false} PlaceAtLeast(held: seq<Held>, i: nat)
    requires Ascending(held) && i < |held|
    ensures i <= Position(held[i].spec.name)
  {
    if i > 0 { PlaceAtLeast(held, i - 1); }
  }

  /** At most the two declared locks are ever held, admission first. */
  lemma {:induction false} AtMostBoth(held: seq<Held>)
    requires Ascending(held)
    ensures |held| <= 2
    ensures |held| == 2 ==> held[0].spec.name == Admission && held[1].spec.name == Data
  {
    if |held| >= 2 {
      assert Position(held[0].spec.name) < Position(held[1].spec.name);
    }
    if |held| > 2 {
      PlaceAtLeast(held, 2);
      assert false;
    }
  }

  lemma {:induction false} UndoKeepsOrder(held: seq<Held>, i: nat)
    requires Ascending(held) && i < |held|
    ensures Ascending(Undo(held, i))
    ensures Find(Undo(held, i), held[i].spec.name).None?
    ensures Specs(Undo(held, i)) == Keep((s: Spec) => s.name != held[i].spec.name, Specs(held))
  {
    AtMostBoth(held);
    var name := held[i].spec.name;
    var p := (s: Spec) => s.name != name;
    var u := Undo(held, i);
    if |held| == 1 {
      assert u == [] && Specs(held) == [held[0].spec];
      assert Keep(p, Specs(held)) == Keep(p, Specs(held)[1..]) == [];
    } else {
      assert u == [held[1 - i]];
      assert Specs(held) == [held[0].spec] + [held[1].spec];
      assert Keep(p, [held[0].spec]) == if i == 0 then [] else [held[0].spec];
      assert Keep(p, [held[1].spec]) == if i == 1 then [] else [held[1].spec];
      KeepConcat(p, [held[0].spec], [held[1].spec]);
    }
  }

  // ---------------------------------------------------------------- the guard

  /** Every handle on the platform is either closed or the locked handle of one held entry. */
  ghost predicate Accounts(held: seq<Held>, state: map<nat, HandleState>) {
    && Ascending(held)
    && (forall i :: 0 <= i < |held| ==> held[i].handle in state && state[held[i].handle] == Locked)
    && (forall i, j :: 0 <= i < j < |held| ==> held[i].handle != held[j].handle)
    && (forall h :: h in state ==> state[h] == Shut || exists i :: 0 <= i < |held| && held[i].handle == h)
  }

  class SolutionGuard {
    const platform: Platform
    const timeoutMs: nat
    const cancellable: bool
    var held: seq<Held>
    var closed: bool

    ghost predicate Valid() reads this, platform {
      && 0 < timeoutMs <= MAX_TIMEOUT_MS
      && platform.Valid()
      && Accounts(held, platform.state)
      && multiset(platform.grants) == multiset(platform.unlocks) + multiset(Handles(held))
    }

    constructor (platform: Platform, timeoutMs: nat, cancellable: bool)
      requires platform.Valid() && platform.Settled() && 0 < timeoutMs <= MAX_TIMEOUT_MS
      ensures Valid() && this.platform == platform && this.timeoutMs == timeoutMs
      ensures held == [] && !closed
    {
      this.platform, this.timeoutMs, this.cancellable := platform, timeoutMs, cancellable;
      held, closed := [], false;
    }

    /** Opens the lock file and checks that the path still names it; up to three times. */
    method OpenVerified() returns (r: Result<nat, GuardError>)
      requires platform.Valid()
      modifies platform
      ensures platform.Valid() && platform.unlocks == old(platform.unlocks)
      ensures platform.grants == old(platform.grants) && platform.now >= old(platform.now)
      ensures r.Success? ==> r.value !in old(platform.state) && r.value in platform.state
      ensures r.Success? ==> platform.state[r.value] == Opened
      ensures r.Failure? ==> r.error.OpenFault()
      ensures forall h :: h in old(platform.state) ==> h in platform.state && platform.state[h] == old(platform.state)[h]
      ensures forall h :: h in platform.state && h !in old(platform.state) ==>
        platform.state[h] == Shut || r == Success(h)
    {
      for attempt := 0 to IDENTITY_OPEN_ATTEMPTS
        invariant platform.Valid() && platform.unlocks == old(platform.unlocks)
        invariant platform.grants == old(platform.grants) && platform.now >= old(platform.now)
        invariant forall h :: h in old(platform.state) ==> h in platform.state && platform.state[h] == old(platform.state)[h]
        invariant forall h :: h in platform.state && h !in old(platform.state) ==> platform.state[h] == Shut
      {
        var ok, h := platform.Open();
        if !ok { return Failure(OpenFailed); }
        var identity := platform.Identify(h);
        match identity {
          case Unreadable =>
            platform.Close(h);
            return Failure(IdentityUnreadable);
          case SameFile =>
            return Success(h);
          case OtherFile =>
            platform.Close(h);
            platform.Sleep(IDENTITY_REOPEN_PAUSE_MS);
        }
      }
      return Failure(IdentityMismatch);
    }

    /**
      The bounded wait on one opened handle. It ends for every clock that does not go back and
      every sleep that lasts as long as asked; the sleeps it asks for total at most the timeout, and
      the number of tries obeys the closed form. A failure leaves the handle closed.
    */
    method TryUntil(h: nat, mode: Mode) returns (r: Result<nat, GuardError>, ghost tries: nat, ghost slept: real)
      requires 0 < timeoutMs <= MAX_TIMEOUT_MS
      requires platform.Valid() && h in platform.state && platform.state[h] == Opened
      modifies platform
      ensures platform.Valid() && platform.now >= old(platform.now) && platform.unlocks == old(platform.unlocks)
      ensures tries <= AttemptBound(timeoutMs) && 0.0 <= slept <= timeoutMs as real
      ensures platform.now >= old(platform.now) + slept
      ensures r.Success? ==> r.value == h && platform.grants == old(platform.grants) + [h]
      ensures r.Failure? ==> r.error.WaitFault() && platform.grants == old(platform.grants)
      ensures r == Failure(Cancelled) ==> cancellable
      ensures r == Failure(Timeout) ==> tries >= 1 && platform.now >= old(platform.now) + timeoutMs as real
      ensures platform.state == old(platform.state)[h := if r.Success? then Locked else Shut]
    {
      tries, slept := 0, 0.0;
      var started := platform.Clock();
      var deadline := started + timeoutMs as real;
      var delay := RETRY_INITIAL_MS as real;
      while true
        invariant platform.Valid() && platform.state == old(platform.state)
        invariant platform.unlocks == old(platform.unlocks) && platform.grants == old(platform.grants)
        invariant tries < AttemptBound(timeoutMs) && delay == Delay(tries) as real
        invariant old(platform.now) <= started <= started + slept <= platform.now && 0.0 <= slept
        invariant slept <= timeoutMs as real
        invariant platform.now >= deadline || slept == Waited(tries) as real
        decreases AttemptBound(timeoutMs) - tries
      {
        if cancellable {
          var asked := platform.CancelAsked();
          if asked {
            platform.Close(h);
            return Failure(Cancelled), tries, slept;
          }
        }
        var try := platform.TryLock(h, mode);
        match try {
          case Got =>
            return Success(h), tries + 1, slept;
          case Broken =>
            platform.Close(h);
            return Failure(LockFailed), tries + 1, slept;
          case Busy =>
            var now := platform.Clock();
            var remaining := deadline - now;
            if remaining <= 0.0 {
              platform.Close(h);
              return Failure(Timeout), tries + 1, slept;
            }
            TriesLeft(timeoutMs, tries);
            DelayCapped(tries);
            var pause := if delay < remaining then delay else remaining;
            platform.Sleep(pause);
            slept := slept + pause;
            delay := if delay * 2.0 < RETRY_MAX_MS as real then delay * 2.0 else RETRY_MAX_MS as real;
            tries := tries + 1;
        }
      }
    }

    /**
      Takes one lock. A request the checks refuse changes nothing; any other failure closes what it
      opened and leaves the held locks as they were.
    */
    method AcquireOne(want: Spec) returns (r: Result<nat, GuardError>, ghost refused: Option<GuardError>)
      requires Valid()
      modifies this`held, platform
      ensures Valid() && platform.now >= old(platform.now) && platform.unlocks == old(platform.unlocks)
      ensures refused == Refusal(old(closed), old(held), want)
      ensures refused.Some? ==>
        && r == Failure(refused.value)
        && platform.state == old(platform.state) && platform.now == old(platform.now)
      ensures refused.None? ==> r.Success? || r.error.OpenFault() || r.error.WaitFault()
      ensures r == Failure(Timeout) ==> platform.now >= old(platform.now) + timeoutMs as real
      ensures r == Failure(Cancelled) ==> cancellable
      ensures r.Success? ==> held == old(held) + [Held(want, r.value)]
      ensures r.Success? ==> platform.grants == old(platform.grants) + [r.value]
      ensures r.Failure? ==> held == old(held) && platform.grants == old(platform.grants)
    {
      var refusal := Refusal(closed, held, want);
      refused := refusal;
      if refusal.Some? { return Failure(refusal.value), refused; }
      RefusalIsExact(closed, held, want, 0);
      r := Take(want);
    }

    /** Opens the file and waits for the lock, which may be taken next. */
    method Take(want: Spec) returns (r: Result<nat, GuardError>)
      requires Valid() && Ascending(held + [Held(want, 0)])
      modifies this`held, platform
      ensures Valid() && platform.now >= old(platform.now) && platform.unlocks == old(platform.unlocks)
      ensures r.Success? || r.error.OpenFault() || r.error.WaitFault()
      ensures r == Failure(Timeout) ==> platform.now >= old(platform.now) + timeoutMs as real
      ensures r == Failure(Cancelled) ==> cancellable
      ensures r.Success? ==> held == old(held) + [Held(want, r.value)]
      ensures r.Success? ==> platform.grants == old(platform.grants) + [r.value]
      ensures r.Failure? ==> held == old(held) && platform.grants == old(platform.grants)
    {
      var handle := OpenVerified();
      if handle.Failure? {
        ShutKeepsAccounts(held, old(platform.state), platform.state);
        return Failure(handle.error);
      }
      var h := handle.value;
      var got, tries, slept := TryUntil(h, want.mode);
      if got.Success? {
        AnyHandle(held, want, h);
        HandlesGrow(held, Held(want, h));
        GrowKeepsAccounts(held, Held(want, h), old(platform.state), platform.state);
        held := held + [Held(want, h)];
      } else {
        ShutKeepsAccounts(held, old(platform.state), platform.state);
      }
      r := got;
    }

    /** Gives up and closes one held lock, whatever the platform says about it. */
    method ReleaseHeld(i: nat) returns (ok: bool)
      requires Valid() && i < |held|
      modifies this`held, platform
      ensures Valid() && platform.now == old(platform.now) && platform.grants == old(platform.grants)
      ensures held == Undo(old(held), i)
      ensures platform.unlocks == old(platform.unlocks) + [old(held)[i].handle]
      ensures platform.state == old(platform.state)[old(held)[i].handle := Shut]
    {
      var h := held[i].handle;
      HandlesUndo(held, i);
      ok := platform.Unlock(h);
      platform.Close(h);
      held := Undo(held, i);
      UndoKeepsAccounts(old(held), i, old(platform.state), platform.state);
    }

    /** Gives up one lock by name. */
    method Release(name: LockName) returns (r: Result<bool, GuardError>)
      requires Valid()
      modifies this`held, platform
      ensures Valid() && platform.now == old(platform.now) && platform.grants == old(platform.grants)
      ensures r == Failure(NotHeld) <==> Find(old(held), name).None?
      ensures r.Success? || r.error.NotHeld? || r.error.UnlockFailed?
      ensures held == Dropped(old(held), name)
      ensures platform.unlocks == old(platform.unlocks) + HandleOf(old(held), name)
    {
      match Find(held, name) {
        case None =>
          return Failure(NotHeld);
        case Some(i) =>
          var ok := ReleaseHeld(i);
          return if ok then Success(true) else Failure(UnlockFailed);
      }
    }

    method ReleaseIfHeld(name: LockName) returns (sound: bool)
      requires Valid()
      modifies this`held, platform
      ensures Valid() && platform.now == old(platform.now) && platform.grants == old(platform.grants)
      ensures held == Dropped(old(held), name)
      ensures platform.unlocks == old(platform.unlocks) + HandleOf(old(held), name)
    {
      match Find(held, name) {
        case None => sound := true;
        case Some(i) => sound := ReleaseHeld(i);
      }
    }

    /** Gives up everything, latest lock first; a lock that cannot be given up is still closed. */
    method ReleaseAll() returns (r: Result<bool, GuardError>)
      requires Valid()
      modifies this`held, platform
      ensures Valid() && platform.now == old(platform.now) && platform.grants == old(platform.grants)
      ensures held == [] && platform.Settled()
      ensures platform.unlocks == old(platform.unlocks) + Handles(old(held))
      ensures r.Success? || r.error == ReleaseFailed
    {
      LatestFirst(held);
      Concat3(platform.unlocks, HandleOf(held, Data), HandleOf(Dropped(held, Data), Admission));
      var soundData := ReleaseIfHeld(Data);
      var soundAdmission := ReleaseIfHeld(Admission);
      var sound := soundData && soundAdmission;
      r := if sound then Success(true) else Failure(ReleaseFailed);
    }

    /** Closes the guard. When a release failed, the locks are gone all the same but it is not marked closed. */
    method Close() returns (r: Result<bool, GuardError>)
      requires Valid()
      modifies this, platform
      ensures Valid() && held == [] && platform.Settled()
      ensures platform.grants == old(platform.grants)
      ensures platform.unlocks == old(platform.unlocks) + Handles(old(held))
      ensures r.Success? || r.error == ReleaseFailed
      ensures closed == (r.Success? || old(closed))
    {
      r := ReleaseAll();
      if r.Success? { closed := true; }
    }

    /** One attempt of `ordered`, its first half: every lock in turn; `taken` is what it took. */
    method AcquireEach(specs: seq<Spec>) returns (r: Result<bool, GuardError>, ghost taken: seq<Held>, ghost blocked: Option<GuardError>)
      requires Valid()
      modifies this`held, platform
      ensures Valid() && platform.unlocks == old(platform.unlocks)
      ensures Acquiring(old(held), old(platform.grants), specs, |taken|, taken, held, platform.grants)
      ensures r.Success? ==> |taken| == |specs| && blocked.None?
      ensures r.Failure? ==> r.error != ReleaseFailed && (r.error == Cancelled ==> cancellable)
      ensures blocked == Blocked(old(closed), old(held), specs)
      ensures blocked.Some? ==> r == Failure(blocked.value) && taken == []
    {
      taken := [];
      blocked := Blocked(closed, held, specs);
      for i := 0 to |specs|
        invariant Valid() && platform.unlocks == old(platform.unlocks) && |taken| == i
        invariant Acquiring(old(held), old(platform.grants), specs, i, taken, held, platform.grants)
        invariant i == 0 ==> held == old(held)
        invariant i > 0 ==> blocked.None?

      {
        var got := AcquireNext(specs, i, old(held), old(platform.grants), taken, blocked);
        if got.Failure? { return Failure(got.error), taken, blocked; }
        taken := taken + [Held(specs[i], got.value)];
      }
      r := Success(true);
    }

    /** The next lock of an attempt; `blocked` says whether the first can be had at all. */
    method AcquireNext(specs: seq<Spec>, i: nat, ghost base: seq<Held>, ghost grants0: seq<nat>, ghost taken: seq<Held>, ghost blocked: Option<GuardError>)
      returns (r: Result<nat, GuardError>)
      requires Valid() && i < |specs| && Acquiring(base, grants0, specs, i, taken, held, platform.grants)
      requires i == 0 ==> blocked == Refusal(closed, held, specs[0])
      modifies this`held, platform
      ensures Valid() && platform.unlocks == old(platform.unlocks)
      ensures r.Success? ==>
        Acquiring(base, grants0, specs, i + 1, taken + [Held(specs[i], r.value)], held, platform.grants)
      ensures r.Failure? ==> Acquiring(base, grants0, specs, i, taken, held, platform.grants)
      ensures r.Failure? ==> r.error != ReleaseFailed && (r.error == Cancelled ==> cancellable)
      ensures i == 0 && blocked.Some? ==> r == Failure(blocked.value)
    {
      ghost var refused;
      r, refused := AcquireOne(specs[i]);
      if r.Success? { AcquiringNext(base, grants0, specs, i, taken, r.value); }
    }

    /** One attempt of `ordered`, its second half: the first `gone` of the early releases are made. */
    method ReleaseEach(early: seq<LockName>) returns (r: Result<bool, GuardError>, ghost gone: nat)
      requires Valid()
      modifies this`held, platform
      ensures Valid() && platform.grants == old(platform.grants)
      ensures gone <= |early| && held == Leaves(old(held), early, gone)
      ensures platform.unlocks == old(platform.unlocks) + Goes(old(held), early, gone)
      ensures r.Success? ==> gone == |early|
      ensures r.Failure? ==> r.error.NotHeld? || r.error.UnlockFailed?
    {
      gone := 0;
      for i := 0 to |early|
        invariant Valid() && platform.grants == old(platform.grants) && gone == i
        invariant held == Leaves(old(held), early, i)
        invariant platform.unlocks == old(platform.unlocks) + Goes(old(held), early, i)
      {
        Concat3(old(platform.unlocks), Goes(old(held), early, i), HandleOf(held, early[i]));
        var done := Release(early[i]);
        gone := i + 1;
        if done.Failure? { return done, gone; }
      }
      r := Success(true);
    }

    /**
      One attempt of `ordered`. One that times out or is cancelled gives up all it holds, latest
      first; one that acquired everything makes the first `gone` early releases; any other failure
      leaves what was taken as it is.
    */
    method Attempt(specs: seq<Spec>, early: seq<LockName>)
      returns (r: Result<bool, GuardError>, ghost acquired: bool, ghost taken: seq<Held>, ghost gone: nat, ghost blocked: Option<GuardError>)
      requires Valid()
      modifies this`held, platform
      ensures Valid() && platform.grants == old(platform.grants) + InOrder(taken) && Specs(taken) <= specs
      ensures blocked == Blocked(old(closed), old(held), specs)
      ensures acquired ==> InLastAttempt(r) && Specs(taken) == specs && blocked.None?
      ensures acquired ==> gone <= |early| && (r.Success? ==> gone == |early|)
      ensures acquired ==> held == Leaves(old(held) + taken, early, gone)
      ensures acquired ==> platform.unlocks == old(platform.unlocks) + Goes(old(held) + taken, early, gone)
      ensures !acquired ==> r.Failure? && (r == Failure(Cancelled) ==> cancellable)
      ensures !acquired && InLastAttempt(r) ==> held == old(held) + taken && platform.unlocks == old(platform.unlocks)
      ensures !InLastAttempt(r) ==> held == [] && platform.Settled()
      ensures !InLastAttempt(r) ==> platform.unlocks == old(platform.unlocks) + Handles(old(held) + taken)
      ensures blocked.Some? ==> r == Failure(blocked.value) && taken == []
    {
      var tried;
      tried, taken, blocked := AcquireEach(specs);
      AcquiredSoFar(old(held), old(platform.grants), specs, |taken|, taken, held, platform.grants);
      acquired := tried.Success?;
      r, gone := AfterAcquiring(tried, early);
    }

    /** What follows the acquisitions: the early releases, or giving up, or nothing at all. */
    method AfterAcquiring(tried: Result<bool, GuardError>, early: seq<LockName>) returns (r: Result<bool, GuardError>, ghost gone: nat)
      requires Valid() && tried != Failure(ReleaseFailed)
      modifies this`held, platform
      ensures Valid() && platform.grants == old(platform.grants)
      ensures tried.Success? ==> InLastAttempt(r) && gone <= |early| && (r.Success? ==> gone == |early|)
      ensures tried.Success? ==> held == Leaves(old(held), early, gone)
      ensures tried.Success? ==> platform.unlocks == old(platform.unlocks) + Goes(old(held), early, gone)
      ensures tried.Failure? && tried.error.Retried() ==> (r == tried || r == Failure(ReleaseFailed)) && held == [] && platform.Settled()
      ensures tried.Failure? && tried.error.Retried() ==> platform.unlocks == old(platform.unlocks) + Handles(old(held))
      ensures tried.Failure? && !tried.error.Retried() ==> r == tried && held == old(held) && platform.unlocks == old(platform.unlocks)
    {
      gone := 0;
      r := tried;
      if tried.Success? {
        r, gone := ReleaseEach(early);
      } else if tried.error.Retried() {
        r := GiveUp(tried.error);
      }
    }

    /** Gives up everything after a failure to be retried; the failure stands if that went well. */
    method GiveUp(failure: GuardError) returns (r: Result<bool, GuardError>)
      requires Valid()
      modifies this`held, platform
      ensures Valid() && platform.grants == old(platform.grants)
      ensures held == [] && platform.Settled()
      ensures platform.unlocks == old(platform.unlocks) + Handles(old(held))
      ensures r == Failure(failure) || r == Failure(ReleaseFailed)
    {
      var released := ReleaseAll();
      r := Failure(if released.Failure? then released.error else failure);
    }

    /**
      Enters `ordered`. Only a timeout or a cancel is retried, after everything held was given up;
      with the last attempt used up nothing is held. Any other failure is passed on as it came.

      `took` lists, attempt by attempt, what each took, and `gone` counts the early releases made in
      the last one. Every attempt given up released all it held, latest first.
    */
    method Enter(specs: seq<Spec>, attempts: int, early: seq<LockName>)
      returns (r: Result<bool, GuardError>, ghost took: seq<seq<Held>>, ghost gone: nat, ghost blocked: Option<GuardError>)
      requires Valid()
      modifies this`held, platform
      ensures Valid()
      ensures attempts < 1 ==> r == Failure(InvalidAttempts) && took == [] && held == old(held)
      ensures attempts < 1 ==> platform.unlocks == old(platform.unlocks) && platform.grants == old(platform.grants)
      ensures attempts >= 1 ==> 1 <= |took| <= attempts && AllPartsOf(took, specs)
      ensures attempts >= 1 ==>
        Progress(old(held), old(platform.grants), old(platform.unlocks), took, early, gone, r, platform.grants, platform.unlocks, held)
      ensures attempts >= 1 && !InLastAttempt(r) ==> platform.Settled()
      ensures Entered(r, took, specs, early, gone)
      ensures blocked == Blocked(old(closed), old(held), specs)
      ensures r.Success? ==> attempts >= 1 && blocked.None?
      ensures r.Failure? && r.error.Retried() ==> |took| == attempts
      ensures r == Failure(Cancelled) ==> cancellable
      ensures attempts >= 1 && blocked.Some? ==> r == Failure(blocked.value) && held == old(held)
    {
      took, gone, blocked := [], 0, Blocked(closed, held, specs);
      if attempts < 1 { return Failure(InvalidAttempts), took, gone, blocked; }
      r, took, gone, blocked := TryAll(specs, attempts, early);
    }

    /** One attempt, added to the trace of those before it. */
    method OneRound(specs: seq<Spec>, early: seq<LockName>,
                    ghost base: seq<Held>, ghost grants0: seq<nat>, ghost unlocks0: seq<nat>, ghost before: seq<seq<Held>>)
      returns (r: Result<bool, GuardError>, ghost took: seq<seq<Held>>, ghost gone: nat, ghost blocked: Option<GuardError>)
      requires Valid() && AllPartsOf(before, specs) && held == LastBase(base, before)
      requires Traced(base, grants0, unlocks0, before, platform.grants, platform.unlocks)
      modifies this`held, platform
      ensures Valid() && |took| == |before| + 1 && AllPartsOf(took, specs)
      ensures Progress(base, grants0, unlocks0, took, early, gone, r, platform.grants, platform.unlocks, held)
      ensures !InLastAttempt(r) ==> platform.Settled()
      ensures Entered(r, took, specs, early, gone) && (r.Success? ==> blocked.None?)
      ensures blocked == Blocked(old(closed), old(held), specs)
      ensures r == Failure(Cancelled) ==> cancellable
      ensures blocked.Some? ==> r == Failure(blocked.value) && held == old(held)
    {
      ghost var taken: seq<Held>, acquired: bool;
      r, acquired, taken, gone, blocked := Attempt(specs, early);
      AttemptTraced(base, grants0, unlocks0, before, old(platform.grants), old(platform.unlocks), taken, early, gone,
                    acquired, r, platform.unlocks, held);
      gone := if acquired then gone else 0;
      AllPartsGrow(before, specs, taken);
      took := before + [taken];
    }

    /** The attempts of `ordered`, as long as they are to be retried. */
    method TryAll(specs: seq<Spec>, attempts: nat, early: seq<LockName>)
      returns (r: Result<bool, GuardError>, ghost took: seq<seq<Held>>, ghost gone: nat, ghost blocked: Option<GuardError>)
      requires Valid() && attempts >= 1
      modifies this`held, platform
      ensures Valid() && 1 <= |took| <= attempts && AllPartsOf(took, specs)
      ensures Progress(old(held), old(platform.grants), old(platform.unlocks), took, early, gone, r, platform.grants, platform.unlocks, held)
      ensures !InLastAttempt(r) ==> platform.Settled()
      ensures Entered(r, took, specs, early, gone) && (r.Success? ==> blocked.None?)
      ensures blocked == Blocked(old(closed), old(held), specs)
      ensures r.Failure? && r.error.Retried() ==> |took| == attempts
      ensures r == Failure(Cancelled) ==> cancellable
      ensures blocked.Some? ==> r == Failure(blocked.value) && held == old(held)
    {
      r, took, gone, blocked := OneRound(specs, early, held, platform.grants, platform.unlocks, []);
      var made := 1;
      while made < attempts && r.Failure? && r.error.Retried()
        invariant Valid() && made == |took| <= attempts && AllPartsOf(took, specs)
        invariant Progress(old(held), old(platform.grants), old(platform.unlocks), took, early, gone, r, platform.grants, platform.unlocks, held)
        invariant !InLastAttempt(r) ==> platform.Settled()
        invariant Entered(r, took, specs, early, gone)
        invariant blocked.Some? ==> r == Failure(blocked.value) && held == old(held)
        invariant r == Failure(Cancelled) ==> cancellable
        decreases attempts - made
      {
        ghost var later;
        r, took, gone, later := OneRound(specs, early, old(held), old(platform.grants), old(platform.unlocks), took);
        made := made + 1;
      }
    }

    /**
      A whole `with ordered(...)` block, whatever its body does elsewhere. Over all attempts, each
      attempt's locks were given up latest first, except that in the attempt that entered the
      declared early ones went first; and at the end nothing is held and everything is settled. Only
      an error passed on as it came leaves what that attempt took, less the early releases it made.
    */
    method Ordered(specs: seq<Spec>, attempts: int, early: seq<LockName>)
      returns (r: Result<bool, GuardError>, ghost took: seq<seq<Held>>, ghost entered: bool, ghost gone: nat)
      requires Valid()
      modifies this`held, platform
      ensures Valid()
      ensures attempts < 1 ==> r == Failure(InvalidAttempts) && held == old(held) && platform.unlocks == old(platform.unlocks)
      ensures attempts >= 1 ==> 1 <= |took| <= attempts && AllPartsOf(took, specs)
      ensures attempts >= 1 ==> platform.grants == old(platform.grants) + Acquired(took)
      ensures r.Success? ==> entered
      ensures entered ==> attempts >= 1 && Specs(took[|took| - 1]) == specs && (r.Success? || r.error == ReleaseFailed)
      ensures entered ==>
        platform.unlocks == old(platform.unlocks) + GivenUp(old(held), took[..|took| - 1]) + RoundOrder(LastHeld(old(held), took), early)
      ensures attempts >= 1 && !entered && !InLastAttempt(r) ==>
        platform.unlocks == old(platform.unlocks) + GivenUp(old(held), took)
      ensures attempts >= 1 && (entered || !InLastAttempt(r)) ==> held == [] && platform.Settled()
      ensures attempts >= 1 && !entered && InLastAttempt(r) ==>
        TracedIn(old(held), old(platform.grants), old(platform.unlocks), took, early, gone, platform.grants, platform.unlocks, held)
    {
      ghost var blocked;
      r, took, gone, blocked := Enter(specs, attempts, early);
      entered := r.Success?;
      if r.Success? {
        ghost var last := LastHeld(old(held), took);
        Concat3(old(platform.unlocks) + GivenUp(old(held), took[..|took| - 1]), Goes(last, early, gone), Handles(Leaves(last, early, gone)));
        r := Exit();
      }
    }

    /** Leaves `ordered`, however its body ended. */
    method Exit() returns (r: Result<bool, GuardError>)
      requires Valid()
      modifies this`held, platform
      ensures Valid() && held == [] && platform.Settled()
      ensures platform.grants == old(platform.grants)
      ensures platform.unlocks == old(platform.unlocks) + Handles(old(held))
      ensures r.Success? || r.error == ReleaseFailed
    {
      r := ReleaseAll();
    }

    /** Enters with admission first in line, so only a guard that is open and holds nothing gets in. */
    method EnterInLine(specs: seq<Spec>, attempts: int, early: seq<LockName>) returns (r: Result<bool, GuardError>, ghost last: seq<Held>)
      requires Valid() && specs != [] && specs[0].name == Admission
      modifies this`held, platform
      ensures Valid()
      ensures r.Success? ==> old(held) == [] && !closed && Specs(last) == specs && held == Leaves(last, early, |early|)
      ensures r.Failure? && (r.error.Retried() || r.error == ReleaseFailed) ==> held == [] && platform.Settled()
      ensures old(held) != [] || closed || attempts < 1 ==> r.Failure? && held == old(held)
    {
      FirstInLineIsAdmission(closed, held, specs[0].mode);
      ghost var took: seq<seq<Held>>, gone: nat, blocked: Option<GuardError>;
      r, took, gone, blocked := Enter(specs, attempts, early);
      last := [];
      if r.Success? {
        last := took[|took| - 1];
        EntryStands(old(held), old(platform.grants), old(platform.unlocks), took, specs, early, gone, r, platform.grants, platform.unlocks, held);
      }
    }

    /** The snapshot reader: data shared is all it holds on entry, admission having been dropped. */
    method Reader(attempts: int) returns (r: Result<bool, GuardError>)
      requires Valid()
      modifies this`held, platform
      ensures Valid()
      ensures r.Success? ==> old(held) == [] && !closed && Specs(held) == [Spec(Data, Shared)]
      ensures r.Failure? && (r.error.Retried() || r.error == ReleaseFailed) ==> held == [] && platform.Settled()
      ensures old(held) != [] || closed || attempts < 1 ==> r.Failure? && held == old(held)
    {
      ghost var last: seq<Held>;
      r, last := EnterInLine(READER_SPECS, attempts, [Admission]);
      if r.Success? { ReaderKeepsData(last); }
    }

    /** The publisher holds both locks exclusively. */
    method Publisher(attempts: int) returns (r: Result<bool, GuardError>)
      requires Valid()
      modifies this`held, platform
      ensures Valid()
      ensures r.Success? ==> old(held) == [] && !closed && Specs(held) == [Spec(Admission, Exclusive), Spec(Data, Exclusive)]
      ensures r.Failure? && (r.error.Retried() || r.error == ReleaseFailed) ==> held == [] && platform.Settled()
      ensures old(held) != [] || closed || attempts < 1 ==> r.Failure? && held == old(held)
    {
      ghost var last: seq<Held>;
      r, last := EnterInLine(PUBLISHER_SPECS, attempts, []);
    }
  }

  const READER_SPECS := [Spec(Admission, Shared), Spec(Data, Shared)]
  const PUBLISHER_SPECS := [Spec(Admission, Exclusive), Spec(Data, Exclusive)]

  lemma {:induction false} ReaderKeepsData(held: seq<Held>)
    requires Specs(held) == READER_SPECS
    ensures Specs(Leaves(held, [Admission], 1)) == [Spec(Data, Shared)]
  {
    assert held[0].spec == Specs(held)[0] && held[1].spec == Specs(held)[1];
    assert Find(held, Admission) == Some(0);
    assert Undo(held, 0) == [held[1]];
    assert Leaves(held, [Admission], 0) == held;
  }

  /** A guard that already holds something, or is closed, cannot start again with admission. */
  lemma {:induction false} FirstInLineIsAdmission(closed: bool, held: seq<Held>, mode: Mode)
    requires Ascending(held)
    ensures Refusal(closed, held, Spec(Admission, mode)).None? <==> !closed && held == []
  {
    if held != [] && Find(held, Admission).None? {
      assert held[0].spec.name != Admission;
      assert Position(held[0].spec.name) > Position(Admission);
    }
  }

  /** Everything opened since `before` has been closed again. */
  ghost predicate OnlyShutSince(before: map<nat, HandleState>, after: map<nat, HandleState>) {
    && (forall h :: h in before ==> h in after && after[h] == before[h])
    && (forall h :: h in after && h !in before ==> after[h] == Shut)
  }

  lemma {:induction false} ShutKeepsAccounts(held: seq<Held>, before: map<nat, HandleState>, after: map<nat, HandleState>)
    requires Accounts(held, before) && OnlyShutSince(before, after)
    ensures Accounts(held, after)
  {
  }

  lemma {:induction false} GrowKeepsAccounts(held: seq<Held>, extra: Held, before: map<nat, HandleState>, after: map<nat, HandleState>)
    requires Accounts(held, before) && extra.handle !in before && Ascending(held + [extra])
    requires extra.handle in after && after[extra.handle] == Locked
    requires OnlyShutSince(before, after[extra.handle := Shut])
    ensures Accounts(held + [extra], after)
  {
    var more := held + [extra];
    forall i | 0 <= i < |held|
      ensures more[i] == held[i] && held[i].handle in after && after[held[i].handle] == Locked
      ensures held[i].handle != extra.handle
    {
      assert held[i].handle in before;
      assert after[extra.handle := Shut][held[i].handle] == before[held[i].handle];
    }
    forall h | h in after && after[h] != Shut ensures exists i :: 0 <= i < |more| && more[i].handle == h {
      if h == extra.handle {
        assert more[|held|].handle == h;
      } else {
        assert after[extra.handle := Shut][h] == after[h];
        var i :| 0 <= i < |held| && held[i].handle == h;
        assert more[i].handle == h;
      }
    }
  }

  /** A caller's timeout: absent means the default, and one out of bounds is refused, not clamped. */
  function ResolveTimeout(asked: Option<int>): (r: Result<nat, GuardError>)
    ensures r.Success? <==> asked.None? || 0 < asked.value <= MAX_TIMEOUT_MS
    ensures r.Success? ==> 0 < r.value <= MAX_TIMEOUT_MS && (asked.Some? ==> r.value == asked.value)
    ensures r.Failure? ==> r.error == InvalidTimeout
  {
    match asked
    case None => Success(DEFAULT_TIMEOUT_MS)
    case Some(ms) => if ms <= 0 || ms > MAX_TIMEOUT_MS then Failure(InvalidTimeout) else Success(ms)
  }

  method NewGuard(platform: Platform, asked: Option<int>, cancellable: bool) returns (r: Result<SolutionGuard, GuardError>)
    requires platform.Valid() && platform.Settled()
    ensures r.Success? <==> ResolveTimeout(asked).Success?
    ensures r.Success? ==> fresh(r.value) && r.value.Valid() && r.value.held == [] && !r.value.closed
    ensures r.Success? ==> r.value.platform == platform && r.value.timeoutMs == ResolveTimeout(asked).value
  {
    var timeout :- ResolveTimeout(asked);
    var guard := new SolutionGuard(platform, timeout, cancellable);
    r := Success(guard);
  }

  /** What is left after an undo are the other held locks, as they were. */
  lemma {:induction false} UndoLeavesOthers(held: seq<Held>, i: nat, k: nat)
    requires i < |held| && k < |held| && k != i
    ensures |Undo(held, i)| == |held| - 1
    ensures Undo(held, i)[if k < i then k else k - 1] == held[k]
  {
  }

  lemma {:induction false} UndoKeepsAccounts(held: seq<Held>, i: nat, before: map<nat, HandleState>, after: map<nat, HandleState>)
    requires Accounts(held, before) && i < |held|
    requires after == before[held[i].handle := Shut]
    ensures Accounts(Undo(held, i), after)
  {
    UndoKeepsOrder(held, i);
    UndoKeepsLocked(held, i, before, after);
    var u := Undo(held, i);
    forall h | h in after && after[h] != Shut ensures exists k :: 0 <= k < |u| && u[k].handle == h {
      var k :| 0 <= k < |held| && held[k].handle == h;
      UndoLeavesOthers(held, i, k);
      assert u[if k < i then k else k - 1].handle == h;
    }
  }

  lemma {:induction false} UndoKeepsLocked(held: seq<Held>, i: nat, before: map<nat, HandleState>, after: map<nat, HandleState>)
    requires Accounts(held, before) && i < |held|
    requires after == before[held[i].handle := Shut]
    ensures var u := Undo(held, i);
      && (forall k :: 0 <= k < |u| ==> u[k].handle in after && after[u[k].handle] == Locked)
      && (forall j, k :: 0 <= j < k < |u| ==> u[j].handle != u[k].handle)
  {
    var u := Undo(held, i);
    forall k | 0 <= k < |u| ensures u[k] == held[if k < i then k else k + 1] {
    }
  }
}
