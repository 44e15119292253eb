/**
  What one process sees of its platform: lock files to open, a non-blocking lock primitive, a
  clock, and a cancel callback. Time is in milliseconds. What other processes do shows only in
  whether a try finds the lock busy.
*/
module GuardPlatform {
  datatype Mode = Shared | Exclusive

  /**
    The life of one opened handle. Nothing leads out of `Shut`, so a handle is closed at most once,
    and a lock that was taken must be given up before its handle can be closed.
  */
  datatype HandleState = Opened | Locked | Unlocked | Shut

  datatype Identity = SameFile | OtherFile | Unreadable
  datatype Try = Got | Busy | Broken

  /** `grants` and `unlocks` record, in order, every lock ever taken and every lock ever given up. */
  class Platform {
    ghost var state: map<nat, HandleState>
    ghost var grants: seq<nat>
    ghost var unlocks: seq<nat>
    var next: nat
    var now: real

    ghost predicate Valid() reads this {
      forall h :: h in state ==> h < next
    }

    /** Every handle ever opened has been closed, and every lock ever taken given up exactly once. */
    ghost predicate Settled() reads this {
      && (forall h :: h in state ==> state[h] == Shut)
      && multiset(grants) == multiset(unlocks)
    }

    constructor ()
      ensures Valid() && Settled() && grants == unlocks == []
    {
      state, grants, unlocks, next, now := map[], [], [], 0, 0.0;
    }

    /** Opens the file; the handle is new. Opening can fail, and then there is no handle. */
    method Open() returns (r: bool, h: nat)
      requires Valid()
      modifies this
      ensures Valid() && now == old(now) && unlocks == old(unlocks) && grants == old(grants)
      ensures h !in old(state)
      ensures state == if r then old(state)[h := Opened] else old(state)
    {
      r, h := *, next;
      if r {
        state := state[h := Opened];
        next := next + 1;
      }
    }

    method Identify(h: nat) returns (r: Identity)
      requires h in state && state[h] == Opened
    {
      var same, readable: bool := *, *;
      r := if !readable then Unreadable else if same then SameFile else OtherFile;
    }

    /** One non-blocking try. Another holder, or a broken primitive, leaves the handle as it was. */
    method TryLock(h: nat, mode: Mode) returns (r: Try)
      requires Valid() && h in state && state[h] == Opened
      modifies this
      ensures Valid() && now == old(now) && unlocks == old(unlocks) && next == old(next)
      ensures grants == if r == Got then old(grants) + [h] else old(grants)
      ensures state == if r == Got then old(state)[h := Locked] else old(state)
    {
      var free, sound: bool := *, *;
      r := if !sound then Broken else if free then Got else Busy;
      if r == Got {
        state := state[h := Locked];
        grants := grants + [h];
      }
    }

    /** Unlocking may report an error; either way the lock has been given up once. */
    method Unlock(h: nat) returns (ok: bool)
      requires Valid() && h in state && state[h] == Locked
      modifies this
      ensures Valid() && now == old(now) && grants == old(grants) && next == old(next)
      ensures state == old(state)[h := Unlocked] && unlocks == old(unlocks) + [h]
    {
      ok := *;
      state := state[h := Unlocked];
      unlocks := unlocks + [h];
    }

    method Close(h: nat)
      requires Valid() && h in state && state[h] in {Opened, Unlocked}
      modifies this
      ensures Valid() && now == old(now) && next == old(next)
      ensures unlocks == old(unlocks) && grants == old(grants)
      ensures state == old(state)[h := Shut]
    {
      state := state[h := Shut];
    }

    /** The clock never goes back. */
    method Clock() returns (t: real)
      modifies this`now
      ensures t == now >= old(now)
    {
      var passed: real :| passed >= 0.0;
      now := now + passed;
      t := now;
    }

    /** A sleep lasts at least as long as asked. */
    method Sleep(ms: real)
      requires ms >= 0.0
      modifies this`now
      ensures now >= old(now) + ms
    {
      var more: real :| more >= 0.0;
      now := now + ms + more;
    }

    method CancelAsked() returns (asked: bool) {
      asked := *;
    }
  }
}
