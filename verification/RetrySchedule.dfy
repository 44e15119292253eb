/** The bounded wait: 25 ms doubling to a 250 ms cap, until the caller's timeout. */
module RetrySchedule {
  const DEFAULT_TIMEOUT_MS := 5000
  const MAX_TIMEOUT_MS := 60000
  const RETRY_INITIAL_MS := 25
  const RETRY_MAX_MS := 250

  /** The delay before retry `k + 1`, counting from the first. */
  function Delay(k: nat): nat {
    if k == 0 then RETRY_INITIAL_MS
    else if Delay(k - 1) * 2 < RETRY_MAX_MS then Delay(k - 1) * 2 else RETRY_MAX_MS
  }

  /** The time asked for by the first `k` delays together. */
  function Waited(k: nat): nat {
    if k == 0 then 0 else Waited(k - 1) + Delay(k - 1)
  }

  lemma {:induction false} DelayCapped(k: nat)
    ensures RETRY_INITIAL_MS <= Delay(k) <= RETRY_MAX_MS
    ensures k >= 4 ==> Delay(k) == RETRY_MAX_MS
  {
    if k >= 1 { DelayCapped(k - 1); }
    if k == 4 {
      assert Delay(1) == 50 && Delay(2) == 100;
      assert Delay(3) == 200;
    }
  }

  lemma {:induction false} WaitedClosedForm(k: nat)
    ensures k >= 4 ==> Waited(k) == 375 + 250 * (k - 4)
    ensures Waited(0) == 0 && Waited(1) == 25 && Waited(2) == 75 && Waited(3) == 175
  {
    assert Delay(1) == 50 && Delay(2) == 100 && Delay(3) == 200;
    assert Waited(1) == 25 && Waited(2) == 75;
    assert Waited(3) == 175 && Waited(4) == 375;
    if k > 4 {
      WaitedClosedForm(k - 1);
      DelayCapped(k - 1);
    }
  }

  lemma {:induction false} WaitedGrows(j: nat, k: nat)
    ensures j <= k ==> Waited(j) <= Waited(k)
    decreases k
  {
    if j < k { WaitedGrows(j, k - 1); }
  }

  /** How many tries a wait of `timeout` milliseconds can make, in closed form. */
  function AttemptBound(timeout: nat): nat {
    if timeout == 0 then 1
    else if timeout <= 25 then 2
    else if timeout <= 75 then 3
    else if timeout <= 175 then 4
    else if timeout <= 375 then 5
    else 5 + (timeout - 375 + 249) / 250
  }

  /**
    The closed form is exact for the schedule: one try fewer leaves time on the clock, and by the
    last one the delays alone have used the timeout up.
  */
  lemma {:induction false} AttemptBoundIsExact(timeout: nat)
    requires timeout > 0
    ensures AttemptBound(timeout) >= 2
    ensures Waited(AttemptBound(timeout) - 2) < timeout <= Waited(AttemptBound(timeout) - 1)
  {
    WaitedClosedForm(AttemptBound(timeout) - 1);
    WaitedClosedForm(AttemptBound(timeout) - 2);
    assert Waited(4) == 375 by { WaitedClosedForm(4); }
  }

  /** While the delays so far leave time on the clock, there are tries left. */
  lemma {:induction false} TriesLeft(timeout: nat, k: nat)
    requires timeout > 0 && Waited(k) < timeout
    ensures k + 1 < AttemptBound(timeout)
  {
    AttemptBoundIsExact(timeout);
    WaitedGrows(AttemptBound(timeout) - 1, k);
  }

  /** The two limits the protocol names: 24 tries by default, 244 at most. */
  lemma {:induction false} ProtocolLimits(timeout: nat)
    requires 0 < timeout <= MAX_TIMEOUT_MS
    ensures AttemptBound(DEFAULT_TIMEOUT_MS) == 24 && AttemptBound(MAX_TIMEOUT_MS) == 244
    ensures AttemptBound(timeout) <= 244
  {
    assert AttemptBound(5000) == 5 + (5000 - 375 + 249) / 250;
    assert AttemptBound(60000) == 5 + (60000 - 375 + 249) / 250;
  }
}
