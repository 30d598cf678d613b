/** The acquiring loop of the per-task lock: retry with doubling sleeps until a deadline. Times in
    milliseconds. */
module LockRetry {

  const FIRST_DELAY: nat := 50
  const MAX_DELAY: nat := 5_000

  // What SETNX answers.
  datatype Attempt = Acquired | Busy | Broken

  datatype Outcome = Locked | TimedOut | IoError | Cancelled

  function Doubled(delay: nat): nat {
    if delay * 2 > MAX_DELAY then MAX_DELAY else delay * 2
  }

  // The sleep asked for after attempt k.
  function Delay(k: nat): nat {
    if k == 0 then FIRST_DELAY else Doubled(Delay(k - 1))
  }

  // All sleeps asked for before attempt k.
  function Slept(k: nat): nat {
    if k == 0 then 0 else Slept(k - 1) + Delay(k - 1)
  }

  // clock(k): the time since the start when attempt k has found the lock taken. A sleep lasts at
  // least as long as asked; it is exact when nothing else takes time.
  ghost predicate Sleeps(clock: nat -> nat) {
    forall k: nat :: SleepsEnough(clock, k)
  }

  predicate SleepsEnough(clock: nat -> nat, k: nat) {
    clock(k) + Delay(k) <= clock(k + 1)
  }

  ghost predicate ExactSleeps(clock: nat -> nat) {
    clock(0) == 0 && forall k: nat :: SleepsExactly(clock, k)
  }

  predicate SleepsExactly(clock: nat -> nat, k: nat) {
    clock(k) + Delay(k) == clock(k + 1)
  }

  // The number of attempts after which a deadline has passed for certain.
  function MaxTries(deadline: nat): (n: nat)
    ensures n >= 1 && Slept(n - 1) >= deadline && (n >= 2 ==> Slept(n - 2) < deadline)
  {
    TriesFrom(deadline, 0) + 1
  }

  function TriesFrom(deadline: nat, k: nat): (n: nat)
    requires k > 0 ==> Slept(k - 1) < deadline
    ensures n >= k && Slept(n) >= deadline && (n > 0 ==> Slept(n - 1) < deadline)
    decreases if Slept(k) >= deadline then 0 else deadline - Slept(k)
  {
    if Slept(k) >= deadline then k
    else
      DelayBounds(k);
      TriesFrom(deadline, k + 1)
  }

  lemma {:induction false} DelayBounds(k: nat)
    ensures FIRST_DELAY <= Delay(k) <= MAX_DELAY
  {
    if k > 0 { DelayBounds(k - 1); }
  }

  lemma {:induction false} SleptGrows(j: nat, k: nat)
    requires j <= k
    ensures Slept(j) <= Slept(k)
  {
    if j < k { SleptGrows(j, k - 1); }
  }

  lemma {:induction false} ClockAtLeastSlept(clock: nat -> nat, k: nat)
    requires Sleeps(clock)
    ensures clock(k) >= Slept(k)
    ensures ExactSleeps(clock) ==> clock(k) == Slept(k)
  {
    if k > 0 {
      ClockAtLeastSlept(clock, k - 1);
      assert SleepsEnough(clock, k - 1);
      assert ExactSleeps(clock) ==> SleepsExactly(clock, k - 1);
    }
  }

  // setNX(k) and done(k) are what attempt k and the wait after it see; tries counts the attempts made.
  method WithLock(setNX: nat -> Attempt, clock: nat -> nat, done: nat -> bool, deadline: nat)
    returns (outcome: Outcome, tries: nat)
    requires Sleeps(clock)
    ensures tries >= 1
    ensures forall k :: 0 <= k < tries - 1 ==> setNX(k).Busy? && clock(k) < deadline && !done(k)
    ensures outcome.Locked? <==> setNX(tries - 1).Acquired?
    ensures outcome.IoError? <==> setNX(tries - 1).Broken?
    ensures outcome.TimedOut? <==> setNX(tries - 1).Busy? && clock(tries - 1) >= deadline
    ensures outcome.Cancelled? <==> setNX(tries - 1).Busy? && clock(tries - 1) < deadline && done(tries - 1)
    ensures tries <= MaxTries(deadline)
    ensures outcome.TimedOut? && ExactSleeps(clock) ==>
              tries == MaxTries(deadline) && clock(tries - 1) < deadline + MAX_DELAY
  {
    var delay := FIRST_DELAY;
    tries := 0;
    while true
      invariant delay == Delay(tries)
      invariant forall k :: 0 <= k < tries ==> setNX(k).Busy? && clock(k) < deadline && !done(k)
      invariant tries < MaxTries(deadline)
      decreases MaxTries(deadline) - tries
    {
      tries := tries + 1;
      match setNX(tries - 1)
      case Acquired => return Locked, tries;
      case Broken => return IoError, tries;
      case Busy =>
        ClockAtLeastSlept(clock, tries - 1);
        if clock(tries - 1) >= deadline {
          if ExactSleeps(clock) { TimedOutExactly(clock, deadline, tries - 1); }
          return TimedOut, tries;
        }
        if done(tries - 1) { return Cancelled, tries; }
        assert tries < MaxTries(deadline);
        delay := Doubled(delay);
    }
  }

  lemma MaxTriesIs(deadline: nat, n: nat)
    requires Slept(n) >= deadline && (n > 0 ==> Slept(n - 1) < deadline)
    ensures MaxTries(deadline) == n + 1
  {
    var m := MaxTries(deadline) - 1;
    if m < n {
      SleptGrows(m, n - 1);
    } else if n < m {
      SleptGrows(n, m - 1);
    }
  }

  lemma TimedOutExactly(clock: nat -> nat, deadline: nat, k: nat)
    requires Sleeps(clock) && ExactSleeps(clock) && clock(k) >= deadline
    requires k > 0 ==> clock(k - 1) < deadline
    ensures k + 1 == MaxTries(deadline) && clock(k) < deadline + MAX_DELAY
  {
    ClockAtLeastSlept(clock, k);
    if k > 0 {
      ClockAtLeastSlept(clock, k - 1);
      DelayBounds(k - 1);
    }
    MaxTriesIs(deadline, k);
  }

  // Six sleeps double; the seventh and later ones are capped.
  lemma {:induction false} SleptClosedForm(k: nat)
    requires k >= 7
    ensures Delay(k) == MAX_DELAY && Slept(k) == 6_350 + MAX_DELAY * (k - 7)
  {
    if k == 7 {
      assert Delay(1) == 100 && Delay(2) == 200 && Delay(3) == 400 && Delay(4) == 800;
      assert Delay(5) == 1_600 && Delay(6) == 3_200;
      assert Slept(1) == 50 && Slept(2) == 150 && Slept(3) == 350 && Slept(4) == 750;
      assert Slept(5) == 1_550 && Slept(6) == 3_150;
    } else {
      SleptClosedForm(k - 1);
    }
  }

  // The two deadlines in use: 30 s for provisioning, 5 s for the expiry check.
  lemma TriesInUse()
    ensures MaxTries(30_000) == 13 && MaxTries(5_000) == 8
  {
    SleptClosedForm(12);
    SleptClosedForm(11);
    MaxTriesIs(30_000, 12);
    SleptClosedForm(7);
    assert Slept(6) == 3_150 by {
      assert Delay(1) == 100 && Delay(2) == 200 && Delay(3) == 400 && Delay(4) == 800 && Delay(5) == 1_600;
      assert Slept(1) == 50 && Slept(2) == 150 && Slept(3) == 350 && Slept(4) == 750 && Slept(5) == 1_550;
    }
    MaxTriesIs(5_000, 7);
  }
}
