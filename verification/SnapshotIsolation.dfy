/**
  A copy whose reads happen at different states of a run of many processes, against one look at the
  store: what `ReadSession.Lane` assumes of the others, proved of `GuardProtocol`.
*/
module SnapshotIsolation {
  import opened Wrappers
  import opened GuardPlatform
  import opened GuardEngine
  import Protocol = GuardProtocol
  import opened ReadSession

  /** `at(0)` is the store at the read of the pointer, `at(1)` at that of the manifest, `at(2 + k)` at that of shard `k`. */
  type Moments = nat -> Contents

  function CopyShardsAt(session: Session, at: Moments, generation: string, entries: seq<Entry>): (r: Result<seq<CopiedShard>, ReadError>)
    decreases |entries|
  {
    if entries == [] then Success([])
    else
      var n := |entries| - 1;
      var before :- CopyShardsAt(session, at, generation, entries[..n]);
      var e := entries[n];
      if EntryRefused(session, e).Some? then Failure(EntryRefused(session, e).value)
      else
        var shard :- ShardOf(session, e, ReadBounded(at(2 + n), ShardPath(generation, e.path), session.limits.shardBytes));
        Success(before + [shard])
  }

  function CopyPlanAt(
    session: Session, at: Moments, planned: Result<Planned, ReadError>, pointer: Option<Pointer>, soFar: nat): Result<Copied, ReadError>
  {
    var p :- planned;
    Together(p, CopyShardsAt(session, at, p.manifest.generation, p.entries), pointer, soFar)
  }

  /** The copy with every read at its own moment. */
  function CopyAt(session: Session, at: Moments): Result<Copied, ReadError> {
    if session.pinned.Some? then
      CopyPlanAt(session, at, PlannedIn(session, at(1), session.pinned.value, None), None, 0)
    else
      var raw :- Capped(ReadBounded(at(0), PointerPath, session.limits.pointerBytes), session.limits.pointerBytes);
      var pointer :- PointerOf(session, raw);
      CopyPlanAt(session, at, PlannedIn(session, at(1), pointer.generation, Some(pointer)), Some(pointer), |raw|)
  }

  lemma {:induction false} ShardsAtOnce(session: Session, at: Moments, c: Contents, generation: string, entries: seq<Entry>)
    requires forall i: nat :: at(i) == c
    ensures CopyShardsAt(session, at, generation, entries) == CopyShards(session, c, generation, entries)
    decreases |entries|
  {
    if entries != [] { ShardsAtOnce(session, at, c, generation, entries[..|entries| - 1]); }
  }

  lemma {:induction false} PlanAtOnce(
    session: Session, at: Moments, c: Contents, planned: Result<Planned, ReadError>, pointer: Option<Pointer>, soFar: nat)
    requires forall i: nat :: at(i) == c
    ensures CopyPlanAt(session, at, planned, pointer, soFar) == CopyPlan(session, c, planned, pointer, soFar)
  {
    match planned
    case Failure(_) =>
    case Success(p) => ShardsAtOnce(session, at, c, p.manifest.generation, p.entries);
  }

  lemma {:induction false} CopyAtOnce(session: Session, at: Moments, c: Contents)
    requires forall i: nat :: at(i) == c
    ensures CopyAt(session, at) == Copy(session, c)
  {
    assert at(0) == c && at(1) == c;
    if session.pinned.Some? {
      PlanAtOnce(session, at, c, PlannedIn(session, c, session.pinned.value, None), None, 0);
    } else {
      var raw := Capped(ReadBounded(c, PointerPath, session.limits.pointerBytes), session.limits.pointerBytes);
      if raw.Success? && PointerOf(session, raw.value).Success? {
        var pointer := PointerOf(session, raw.value).value;
        PlanAtOnce(session, at, c, PlannedIn(session, c, pointer.generation, Some(pointer)), Some(pointer), |raw.value|);
      }
    }
  }

  /**
    In any run of any number of processes, reads made at any states of a stretch in which one process
    holds data shared add up to one look at the store at the start of that stretch.
  */
  lemma {:induction false} SeparateReadsAreOne(
    states: seq<Protocol.System<Contents>>, actions: seq<Protocol.Action<Contents>>, r: nat, first: nat, last: nat,
    moment: nat -> nat, session: Session)
    requires Protocol.Run(states, actions) && Protocol.Inv(states[0]) && first <= last < |states|
    requires forall i :: first <= i <= last ==>
      r < |states[i].procs| && Protocol.Has(states[i].procs[r], Spec(Data, Shared))
    requires forall i: nat :: first <= moment(i) <= last
    ensures CopyAt(session, (i: nat) => if moment(i) < |states| then states[moment(i)].lane else map[])
         == Copy(session, states[first].lane)
  {
    var at := (i: nat) => if moment(i) < |states| then states[moment(i)].lane else map[];
    forall i: nat ensures at(i) == states[first].lane {
      Protocol.LaneStandsStill(states, actions, r, first, moment(i));
    }
    CopyAtOnce(session, at, states[first].lane);
  }
}
