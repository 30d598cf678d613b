/** What ProvisioningProtocol asks of writes and releases it asks for a reason: runs of orderly steps and then
    one out of turn, or one late release, that undoes what the protocol keeps. And a lease outlived alone does
    no harm. */
module ProvisioningHazards {
  import opened TaskTypes
  import opened Wrappers
  import opened ProvisioningProtocol
  import opened ProvisioningRefinement
  import Ops = TaskOps

  const SANDBOX := Route("sandbox", "url", Nil)

  // A new task with goroutines 0 and 1 on server 0, and 2 on server 1.
  const FRESH := World(0, Some(Row(New, false, "", "")), None, None,
                       [Process(0, Idle, 0, 0, ""), Process(0, Idle, 0, 0, ""), Process(1, Idle, 0, 0, "")], 0, 0, 0)

  // s is a reachable world in which goroutine 0, out of turn, is about to make a delicate write.
  ghost predicate AboutToIntrude(s: World) {
    Reaches(FRESH, s) && |s.procs| == 3 && Enabled(s, DoWrite(0, Stored)) && !InOrder(s, DoWrite(0, Stored))
  }

  lemma ReachedInv(s: World)
    requires Reaches(FRESH, s)
    ensures Inv(s)
  {
    var trace, acts :| PathBetween(FRESH, s, trace, acts);
    forall j | 0 <= j < |acts| ensures InOrder(trace[j], acts[j]) { assert Orderly(trace[j], acts[j]); }
    InvAlways(trace, acts, |acts|);
  }

  // Goroutine 2 provisions the task by itself.
  lemma OtherProvisions(s: World) returns (t: World)
    requires Reaches(FRESH, s) && Ready(s, 2) && !s.row.value.provisioned
    ensures Reaches(FRESH, t) && t.now == s.now && t.turns == s.turns + 1
    ensures t.procs == s.procs[2 := s.procs[2].(pc := Idle, since := s.now, turn := s.turns + 1)]
    ensures t.row.Some? && t.row.value.provisioned && Mapped(t.hash)
  {
    t := AloneEnsure(s, 2, Ops.NEW_FIELDS, Ops.Callback(Some(SANDBOX), true));
    ReachesFurther(FRESH, s, t);
  }

  // Goroutine 0 is in the callback of EnsureProvisioned.
  lemma InCallback() returns (s: World)
    ensures Reaches(FRESH, s)
    ensures s == FRESH.(lock := s.lock, procs := FRESH.procs[0 := Process(0, Callback, 0, 1, "")], turns := 1)
    ensures s.lock == Some(Lease(0, 0, LOCK_TTL))
  {
    ReachesSelf(FRESH);
    s := Then(FRESH, FRESH, Begin(0, Ensure));
    s := Then(FRESH, s, Acquire(0));
    s := Then(FRESH, s, Read(0, true));
  }

  lemma AboutToSetFlag() returns (s: World)
    ensures Reaches(FRESH, s) && s.procs == FRESH.procs[0 := Process(0, SetFlag, 0, 1, "")] && s.now == 0
    ensures s.row == Some(Row(Running, false, "", "")) && Mapped(s.hash) && s.turns == 1
    ensures s.lock == Some(Lease(0, 0, LOCK_TTL)) && s.commits == s.clears == 0
  {
    s := InCallback();
    s := Then(FRESH, s, WriteRunning(0, SANDBOX, Stored));
    s := Then(FRESH, s, DoWrite(0, Stored));
    s := VerifyReads(s);
  }

  lemma VerifyReads(s0: World) returns (s: World)
    requires Reaches(FRESH, s0) && |s0.procs| == 3 && s0.procs[0].pc.Callback?
    requires s0.row.Some? && s0.row.value.state == Running && Mapped(s0.hash)
    ensures Reaches(FRESH, s) && s == s0.(procs := s0.procs[0 := s0.procs[0].(pc := SetFlag)])
  {
    s := Then(FRESH, s0, CallbackReturns(0));
    s := Then(FRESH, s, Read(0, true));
    s := Then(FRESH, s, Read(0, true));
  }

  // Setting the flag: another server resets the task in between, and the late commit leaves it provisioned
  // without a sandbox.
  lemma LateFlagLosesRoute() returns (s: World)
    ensures AboutToIntrude(s) && s.procs[0].pc.SetFlag?
    ensures !Routed(Step(s, DoWrite(0, Stored)))
  {
    s := AboutToSetFlag();
    s := Then(FRESH, s, Tick(LOCK_TTL));
    var before := s;
    s := AloneReprovision(s, 2, Ops.NEW_FIELDS);
    ReachesFurther(FRESH, before, s);
  }

  // Setting the flag: another server provisions the task in between, and the late commit counts it twice.
  lemma LateFlagCountsTwice() returns (s: World)
    ensures AboutToIntrude(s) && s.procs[0].pc.SetFlag?
    ensures !Balanced(Step(s, DoWrite(0, Stored)))
  {
    s := AboutToSetFlag();
    s := Then(FRESH, s, Tick(LOCK_TTL));
    s := OtherProvisions(s);
    ReachedInv(s);
    BalanceKeptExactly(s, DoWrite(0, Stored));
  }

  // A body that outlives its lease while nobody else acquires the lock commits in order, and keeps its route.
  lemma OverrunAloneKeepsRoute(late: nat) returns (s: World)
    requires late >= LOCK_TTL
    ensures Reaches(FRESH, s) && |s.procs| == 3 && !InLease(s, 0) && s.procs[0].pc.SetFlag?
    ensures var a := DoWrite(0, Stored);
            && Enabled(s, a) && Orderly(s, a) && !Timely(s, a)
            && Step(s, a).row.Some? && Step(s, a).row.value.provisioned && Mapped(Step(s, a).hash)
  {
    s := AboutToSetFlag();
    s := Then(FRESH, s, Tick(late));
  }

  // Mapping to no sandbox: another server provisions the task in between, and loses its route.
  lemma LateHashLosesRoute() returns (s: World)
    ensures AboutToIntrude(s) && s.procs[0].pc.WriteHash?
    ensures !Routed(Step(s, DoWrite(0, Stored)))
  {
    s := InCallback();
    s := Then(FRESH, s, WriteRunning(0, Route("", "", Nil), Stored));
    s := Then(FRESH, s, Tick(LOCK_TTL));
    s := OtherProvisions(s);
  }

  // Deleting the hash: another server provisions the task in between, and loses its route.
  lemma LateDeleteLosesRoute() returns (s: World)
    ensures AboutToIntrude(s) && s.procs[0].pc.DeleteHash?
    ensures !Routed(Step(s, DoWrite(0, Stored)))
  {
    ReachesSelf(FRESH);
    s := Then(FRESH, FRESH, Begin(0, Reprovision));
    s := Then(FRESH, s, Acquire(0));
    s := Then(FRESH, s, DoWrite(0, Stored));
    s := Then(FRESH, s, Tick(LOCK_TTL));
    s := OtherProvisions(s);
  }

  // Goroutine 0 fails after its lease has run out and goroutine 1 has entered.
  lemma TwoInTurn() returns (s: World)
    ensures Reaches(FRESH, s) && s.row.Some? && s.now == LOCK_TTL && s.lock == Some(Lease(0, 1, LOCK_TTL + LOCK_TTL))
    ensures s.procs ==
              [Process(0, Unlock, 0, 1, ""), Process(0, CheckProvisioned, LOCK_TTL, 2, ""), Process(1, Idle, 0, 0, "")]
  {
    s := InCallback();
    s := Then(FRESH, s, CallbackFails(0));
    s := Then(FRESH, s, Tick(LOCK_TTL));
    s := Then(FRESH, s, Begin(1, Ensure));
    s := Then(FRESH, s, Acquire(1));
  }

  // Unlocking: the key names the server, so the late unlock frees the running lease of another goroutine of
  // the same server, a third one enters, and two bodies run, each within its own lease.
  lemma LateUnlockAdmitsTwo() returns (s: World, last: World)
    ensures Reaches(FRESH, s) && |s.procs| == 3 && s.procs[0].pc.Unlock? && !TimelyRelease(s, DoWrite(0, Stored))
    ensures var t := Step(s, DoWrite(0, Stored));
            && Enabled(t, Acquire(2)) && last == Step(t, Acquire(2))
    ensures last.row.Some? && InLease(last, 1) && InLease(last, 2)
    ensures Critical(last.procs[1].pc) && Critical(last.procs[2].pc)
  {
    s := TwoInTurn();
    s := Then(FRESH, s, Begin(2, Ensure));
    last := Step(Step(s, DoWrite(0, Stored)), Acquire(2));
  }
}
