/** The MySQL+Redis provisioning protocol of one task, as a step machine: the row, the sandbox hash, the
    lease lock, and any number of processes, each of which may fail or stop between any two store
    operations. InOrder and TimelyRelease limit the interleavings, and only where a lemma names them. */
module ProvisioningProtocol {
  import opened TaskTypes
  import opened Wrappers

  const LOCK_TTL: nat := 30_000  // milliseconds

  // The value of the lock key is the host and pid, which all goroutines of one server share; owner
  // is the goroutine that set it and is known to the model only.
  datatype Lease = Lease(holder: nat, owner: nat, expires: nat)

  datatype Op = Ensure | IfExpired | Reprovision

  // Where a process stands: at the store operation it does next.
  datatype Pc =
    | Idle
    | Waiting(op: Op)
    | CheckProvisioned | Callback | WriteHash(route: Route) | VerifyState | VerifyHash | SetFlag
    | CheckReset | ReadHash | AskLiveness | ClearRow | DeleteHash
    | Unlock
    | DeleteKeys
    | Stopped

  // since: when the lock was acquired; turn: the number of that acquisition, known to the model only;
  // session: the handle's own copy of the session id.
  datatype Process = Process(server: nat, pc: Pc, since: nat, turn: nat, session: string)

  datatype World = World(now: nat, row: Option<Row>, hash: Option<SandboxHash>, lock: Option<Lease>,
                         procs: seq<Process>, turns: nat, commits: nat, clears: nat)

  datatype Action =
    | Tick(dt: nat)
    | Stop(p: nat)
    | Load(p: nat)
    | WriteProvisioning(p: nat, w: Write)
    | WriteError(p: nat, msg: string, w: Write)
    | WriteSession(p: nat, id: string, w: Write)
    | Begin(p: nat, op: Op)
    | Acquire(p: nat)
    | AcquireUnheard(p: nat)
    | GiveUp(p: nat)
    | Read(p: nat, ok: bool)
    | CallbackFails(p: nat)
    | CallbackReturns(p: nat)
    | WriteRunning(p: nat, r: Route, w: Write)
    | LivenessAnswer(p: nat, dead: bool)
    | DoWrite(p: nat, w: Write)
    | DeleteRow(p: nat, w: Write)

  predicate Critical(pc: Pc) {
    match pc
    case Idle | Waiting(_) | DeleteKeys | Stopped => false
    case _ => true
  }

  predicate LockFree(s: World) {
    s.lock.None? || s.lock.value.expires <= s.now
  }

  predicate Enabled(s: World, a: Action) {
    a.Tick? ||
    (a.p < |s.procs| &&
     var pc := s.procs[a.p].pc;
     match a
     case Stop(_) => !pc.Stopped?
     case Load(_) | WriteProvisioning(_, _) | WriteError(_, _, _) | WriteSession(_, _, _)
       | Begin(_, _) | DeleteRow(_, _) => pc.Idle?
     case Acquire(_) | AcquireUnheard(_) => pc.Waiting? && LockFree(s)
     case GiveUp(_) => pc.Waiting?
     case Read(_, _) => pc.CheckProvisioned? || pc.VerifyState? || pc.VerifyHash? || pc.CheckReset? || pc.ReadHash?
     case CallbackFails(_) | CallbackReturns(_) | WriteRunning(_, _, _) => pc.Callback?
     case LivenessAnswer(_, _) => pc.AskLiveness?
     case DoWrite(_, _) =>
       pc.WriteHash? || pc.SetFlag? || pc.ClearRow? || pc.DeleteHash? || pc.Unlock? || pc.DeleteKeys?)
  }

  function Goto(s: World, p: nat, pc: Pc): World
    requires p < |s.procs|
  {
    s.(procs := s.procs[p := s.procs[p].(pc := pc)])
  }

  // UPDATE ... WHERE id = ?: nothing happens to a row that is gone.
  function Update(s: World, w: Write, f: Row -> Row): World {
    if w.Applied() && s.row.Some? then s.(row := Some(f(s.row.value))) else s
  }

  function AfterLock(op: Op): Pc {
    match op
    case Ensure => CheckProvisioned
    case IfExpired => CheckReset
    case Reprovision => ClearRow
  }

  // A read that fails, or whose answer ends the body, goes on to the deferred unlock.
  function AfterRead(s: World, p: nat, ok: bool): Pc
    requires p < |s.procs|
  {
    if !ok then Unlock
    else
      match s.procs[p].pc
      case CheckProvisioned => if s.row.None? || s.row.value.provisioned then Unlock else Callback
      case VerifyState => if s.row.Some? && s.row.value.state == Running then VerifyHash else Unlock
      case VerifyHash => if Mapped(s.hash) then SetFlag else Unlock
      case CheckReset => if s.row.None? || !s.row.value.provisioned then Unlock else ReadHash
      case _ => if Mapped(s.hash) then AskLiveness else Unlock
  }

  function AfterWrite(s: World, p: nat, w: Write): World
    requires p < |s.procs|
  {
    match s.procs[p].pc
    case WriteHash(r) =>
      var t := Goto(s, p, Callback);
      if w.Applied() then t.(hash := Some(SandboxHash(r.sandboxId, r.baseUrl, Marshal(r.headers)))) else t
    case SetFlag =>
      var t := Update(Goto(s, p, Unlock), w, (row: Row) => row.(provisioned := true));
      if w.Applied() && s.row.Some? then t.(commits := s.commits + 1) else t
    case ClearRow =>
      var t := Update(Goto(s, p, if w.Reported() then DeleteHash else Unlock), w,
                      (row: Row) => row.(state := New, provisioned := false));
      if w.Applied() && s.row.Some? && s.row.value.provisioned then t.(clears := s.clears + 1) else t
    case DeleteHash =>
      var t := Goto(s, p, Unlock);
      if w.Applied() then t.(hash := None) else t
    case Unlock =>
      var t := Goto(s, p, Idle);
      if w.Applied() && s.lock.Some? && s.lock.value.holder == s.procs[p].server then t.(lock := None) else t
    case _ =>
      var t := Goto(s, p, Idle);
      if w.Applied() then t.(hash := None, lock := None) else t
  }

  function Step(s: World, a: Action): World
    requires Enabled(s, a)
  {
    match a
    case Tick(dt) => s.(now := s.now + dt)
    case Stop(p) => Goto(s, p, Stopped)
    case Load(p) =>
      if s.row.Some? then s.(procs := s.procs[p := s.procs[p].(session := s.row.value.sessionId)]) else s
    case WriteProvisioning(_, w) => Update(s, w, (row: Row) => row.(state := Provisioning))
    case WriteError(_, msg, w) => Update(s, w, (row: Row) => row.(state := Error, errorMsg := msg))
    case WriteSession(p, id, w) =>
      if s.row.None? || s.row.value.sessionId != "" then s
      else
        var t := Update(s, w, (row: Row) => row.(sessionId := id));
        if w.Reported() then t.(procs := s.procs[p := s.procs[p].(session := id)]) else t
    case Begin(p, op) => Goto(s, p, Waiting(op))
    case Acquire(p) =>
      var proc := s.procs[p];
      s.(lock := Some(Lease(proc.server, p, s.now + LOCK_TTL)), turns := s.turns + 1,
         procs := s.procs[p := proc.(pc := AfterLock(proc.pc.op), since := s.now, turn := s.turns + 1)])
    // The key was set but the answer lost: the caller gives up, the key stays until it expires.
    case AcquireUnheard(p) =>
      Goto(s, p, Idle).(lock := Some(Lease(s.procs[p].server, p, s.now + LOCK_TTL)))
    case GiveUp(p) => Goto(s, p, Idle)
    case Read(p, ok) => Goto(s, p, AfterRead(s, p, ok))
    case CallbackFails(p) => Goto(s, p, Unlock)
    case CallbackReturns(p) => Goto(s, p, VerifyState)
    case WriteRunning(p, r, w) =>
      Update(if w.Reported() then Goto(s, p, WriteHash(r)) else s, w, (row: Row) => row.(state := Running))
    case LivenessAnswer(p, dead) => Goto(s, p, if dead then ClearRow else Unlock)
    case DoWrite(p, w) => AfterWrite(s, p, w)
    case DeleteRow(p, w) =>
      var t := Goto(s, p, if w.Reported() then DeleteKeys else Idle);
      if w.Applied() then t.(row := None) else t
  }

  /* ---- runs ---- */

  // A created task: a fresh row, no hash, no lock; its processes have done nothing yet.
  predicate Init(s: World) {
    && s.row == Some(Row(New, false, "", "")) && s.hash.None? && s.lock.None?
    && s.turns == s.commits == s.clears == 0
    && forall proc <- s.procs :: proc.pc == Idle && proc.turn == 0 && proc.session == ""
  }

  ghost predicate Path(trace: seq<World>, acts: seq<Action>) {
    && |trace| == |acts| + 1
    && forall i :: 0 <= i < |acts| ==> Enabled(trace[i], acts[i]) && trace[i + 1] == Step(trace[i], acts[i])
  }

  ghost predicate Execution(trace: seq<World>, acts: seq<Action>) {
    Path(trace, acts) && Init(trace[0])
  }

  // Nobody has acquired the lock since the process did.
  predicate InTurn(s: World, p: nat)
    requires p < |s.procs|
  {
    s.procs[p].turn == s.turns
  }

  // The writes that can spoil what another body has verified: setting the flag, deleting the hash, and
  // mapping the task to no sandbox.
  predicate Delicate(s: World, a: Action)
    requires Enabled(s, a)
  {
    a.DoWrite? && a.w.Applied() && s.row.Some? &&
    match s.procs[a.p].pc
    case SetFlag | DeleteHash => true
    case WriteHash(r) => r.sandboxId == ""
    case _ => false
  }

  // The hypothesis: no such write is stored once another process has acquired the lock. A body may outlive
  // its lease as long as it likes, alone or without such a write.
  predicate InOrder(s: World, a: Action)
    requires Enabled(s, a)
  {
    Delicate(s, a) ==> InTurn(s, a.p)
  }

  ghost predicate InOrderUpTo(trace: seq<World>, acts: seq<Action>, i: nat)
    requires Path(trace, acts) && i < |trace|
  {
    forall j :: 0 <= j < i ==> InOrder(trace[j], acts[j])
  }

  /* ---- the invariant ---- */

  // Turns are handed out once.
  predicate TurnsOk(s: World) {
    && (forall p :: 0 <= p < |s.procs| ==>
          s.procs[p].turn <= s.turns && (Critical(s.procs[p].pc) ==> s.procs[p].turn > 0))
    && forall p, q :: 0 <= p < q < |s.procs| && s.procs[p].turn == s.procs[q].turn ==> s.procs[p].turn == 0
  }

  predicate FlagClear(pc: Pc) {
    pc.Callback? || pc.WriteHash? || pc.VerifyState? || pc.VerifyHash? || pc.SetFlag? || pc.DeleteHash?
  }

  // What the process in a body already knows of the row and the hash.
  predicate Knows(s: World, pc: Pc)
    requires s.row.Some?
  {
    && (FlagClear(pc) ==> !s.row.value.provisioned)
    && (pc.SetFlag? ==> Mapped(s.hash))
  }

  predicate BodiesKnow(s: World) {
    s.row.Some? ==> forall p :: 0 <= p < |s.procs| && InTurn(s, p) ==> Knows(s, s.procs[p].pc)
  }

  predicate Routed(s: World) {
    s.row.Some? && s.row.value.provisioned ==> Mapped(s.hash)
  }

  predicate Balanced(s: World) {
    s.row.Some? ==> s.commits == s.clears + if s.row.value.provisioned then 1 else 0
  }

  // A deletion clears the Redis keys only once the row is gone.
  predicate DeletedInOrder(s: World) {
    forall proc <- s.procs :: proc.pc.DeleteKeys? ==> s.row.None?
  }

  predicate Inv(s: World) {
    TurnsOk(s) && BodiesKnow(s) && Routed(s) && Balanced(s) && DeletedInOrder(s)
  }

  // Of two bodies, at most one is in turn.
  lemma OneInTurn(s: World, p: nat, q: nat)
    requires TurnsOk(s) && p < |s.procs| && q < |s.procs|
    requires Critical(s.procs[p].pc) && InTurn(s, p) && InTurn(s, q)
    ensures p == q
  {
  }

  lemma StepKeepsOrder(s: World, a: Action)
    requires DeletedInOrder(s) && Enabled(s, a)
    ensures DeletedInOrder(Step(s, a))
  {
    var t := Step(s, a);
    forall p | 0 <= p < |t.procs| && t.procs[p].pc.DeleteKeys? ensures t.row.None? {
      assert s.procs[p] in s.procs;
    }
  }

  lemma OthersUntouched(s: World, a: Action, p: nat)
    requires Enabled(s, a) && (a.Tick? || a.p != p)
    ensures |Step(s, a).procs| == |s.procs| && Step(s, a).now >= s.now && Step(s, a).turns >= s.turns
    ensures p < |s.procs| ==> Step(s, a).procs[p] == s.procs[p]
  {
  }

  // Only acquiring takes a turn, and only a body goes on in one, under the lock as it finds it.
  lemma ActorsTurn(s: World, a: Action)
    requires Enabled(s, a) && !a.Tick?
    ensures var t := Step(s, a);
            var before, after := s.procs[a.p], t.procs[a.p];
            && t.now == s.now && after.server == before.server
            && if a.Acquire? then t.turns == s.turns + 1 == after.turn && after.since == s.now
               else t.turns == s.turns && after.turn == before.turn && after.since == before.since
                    && (Critical(after.pc) ==> Critical(before.pc) && t.lock == s.lock)
  {
  }

  lemma TurnsStayOk(s: World, t: World, p: nat)
    requires TurnsOk(s) && p < |s.procs| == |t.procs|
    requires forall q :: 0 <= q < |s.procs| && q != p ==> t.procs[q] == s.procs[q]
    requires (t.turns == s.turns && t.procs[p].turn == s.procs[p].turn) || t.turns == s.turns + 1 == t.procs[p].turn
    requires Critical(t.procs[p].pc) ==> t.procs[p].turn > 0
    ensures TurnsOk(t)
  {
  }

  lemma StepKeepsTurns(s: World, a: Action)
    requires TurnsOk(s) && Enabled(s, a)
    ensures TurnsOk(Step(s, a))
  {
    var t := Step(s, a);
    if !a.Tick? {
      ActorsTurn(s, a);
      forall p | 0 <= p < |s.procs| && p != a.p ensures |t.procs| == |s.procs| && t.procs[p] == s.procs[p] {
        OthersUntouched(s, a, p);
      }
      OthersUntouched(s, a, |s.procs|);
      TurnsStayOk(s, t, a.p);
    }
  }

  // What the process that takes a step knows afterwards.
  lemma ActorKnows(s: World, a: Action)
    requires Inv(s) && Enabled(s, a) && !a.Tick?
    ensures var t := Step(s, a); t.row.Some? && InTurn(t, a.p) ==> Knows(t, t.procs[a.p].pc)
  {
    ActorsTurn(s, a);
    match a
    case Read(p, ok) => if s.row.Some? && InTurn(s, p) { ReaderKnows(s, p, ok); }
    case DoWrite(p, w) => if InTurn(s, p) { WriterKnows(s, p, w); }
    case _ => MoverKnows(s, a);
  }

  lemma MoverKnows(s: World, a: Action)
    requires Inv(s) && Enabled(s, a) && !a.Tick? && !a.Read? && !a.DoWrite?
    ensures var t := Step(s, a); t.row.Some? && InTurn(t, a.p) ==> Knows(t, t.procs[a.p].pc)
  {
  }

  lemma ReaderKnows(s: World, p: nat, ok: bool)
    requires Inv(s) && Enabled(s, Read(p, ok)) && s.row.Some? && Knows(s, s.procs[p].pc)
    ensures Knows(s, AfterRead(s, p, ok))
  {
  }

  lemma WriterKnows(s: World, p: nat, w: Write)
    requires Inv(s) && Enabled(s, DoWrite(p, w)) && (s.row.Some? ==> Knows(s, s.procs[p].pc))
    ensures var t := AfterWrite(s, p, w); t.row.Some? ==> Knows(t, t.procs[p].pc)
  {
  }

  // What a process in turn knows stays true: no other body is in turn, so a is no delicate write.
  lemma OthersKnow(s: World, a: Action, p: nat)
    requires Inv(s) && Enabled(s, a) && InOrder(s, a) && p < |s.procs| && InTurn(s, p)
    requires !a.Tick? ==> a.p != p
    ensures var t := Step(s, a); t.row.Some? ==> t.procs[p] == s.procs[p] && Knows(t, t.procs[p].pc)
  {
    if !a.Tick? {
      assert s.procs[a.p] in s.procs;
      if Critical(s.procs[p].pc) && InTurn(s, a.p) { OneInTurn(s, p, a.p); }
    }
  }

  // A step keeps the route exactly when it is none of three writes: setting the flag over an unmapped hash,
  // and, on a provisioned row, deleting the hash or mapping the task to no sandbox.
  predicate Breaks(s: World, a: Action)
    requires Enabled(s, a)
  {
    a.DoWrite? && a.w.Applied() && s.row.Some? &&
    match s.procs[a.p].pc
    case SetFlag => !Mapped(s.hash)
    case DeleteHash => s.row.value.provisioned
    case WriteHash(r) => s.row.value.provisioned && r.sandboxId == ""
    case _ => false
  }

  lemma RouteKeptExactly(s: World, a: Action)
    requires Inv(s) && Enabled(s, a)
    ensures Routed(Step(s, a)) <==> !Breaks(s, a)
    ensures Breaks(s, a) ==> !InTurn(s, a.p)
  {
    if !a.Tick? { assert s.procs[a.p] in s.procs; }
  }

  // It keeps the balance exactly when it does not set a flag that is set.
  predicate Recommits(s: World, a: Action)
    requires Enabled(s, a)
  {
    a.DoWrite? && a.w.Applied() && s.row.Some? && s.procs[a.p].pc.SetFlag? && s.row.value.provisioned
  }

  lemma BalanceKeptExactly(s: World, a: Action)
    requires Inv(s) && Enabled(s, a)
    ensures Balanced(Step(s, a)) <==> !Recommits(s, a)
    ensures Recommits(s, a) ==> !InTurn(s, a.p)
  {
    if !a.Tick? { assert s.procs[a.p] in s.procs; }
  }

  lemma {:induction false} StepKeepsInv(s: World, a: Action)
    requires Inv(s) && Enabled(s, a) && InOrder(s, a)
    ensures Inv(Step(s, a))
  {
    StepKeepsTurns(s, a);
    StepKeepsOrder(s, a);
    RouteKeptExactly(s, a);
    BalanceKeptExactly(s, a);
    var t := Step(s, a);
    if t.row.Some? {
      forall p | 0 <= p < |t.procs| && InTurn(t, p) ensures Knows(t, t.procs[p].pc) {
        if a.Tick? || p != a.p {
          OthersUntouched(s, a, p);
          assert s.procs[p].turn <= s.turns;
          OthersKnow(s, a, p);
        } else {
          ActorKnows(s, a);
        }
      }
    }
  }

  lemma {:induction false} InvAlways(trace: seq<World>, acts: seq<Action>, i: nat)
    requires Execution(trace, acts) && i < |trace| && InOrderUpTo(trace, acts, i)
    ensures Inv(trace[i])
  {
    if i > 0 {
      InvAlways(trace, acts, i - 1);
      StepKeepsInv(trace[i - 1], acts[i - 1]);
    }
  }

  /* ---- main results ---- */

  // However processes interleave, fail, stop and outlive their leases: as long as no delicate write comes
  // after another process has acquired the lock, a provisioned task has a sandbox route.
  lemma ProvisionedHasRoute(trace: seq<World>, acts: seq<Action>, i: nat)
    requires Execution(trace, acts) && i < |trace| && InOrderUpTo(trace, acts, i)
    ensures trace[i].row.Some? && trace[i].row.value.provisioned ==> Mapped(trace[i].hash)
  {
    InvAlways(trace, acts, i);
  }

  // And the next step loses the route exactly when it is one of the three writes, which is then out of turn.
  lemma RouteLostExactly(trace: seq<World>, acts: seq<Action>, i: nat, a: Action)
    requires Execution(trace, acts) && i < |trace| && InOrderUpTo(trace, acts, i) && Enabled(trace[i], a)
    ensures Routed(Step(trace[i], a)) <==> !Breaks(trace[i], a)
    ensures Breaks(trace[i], a) ==> !InOrder(trace[i], a)
  {
    InvAlways(trace, acts, i);
    RouteKeptExactly(trace[i], a);
  }

  // Conservation: commits of the flag are the resets that cleared it, plus the one still standing; the next
  // step upsets that exactly when it sets a flag that is set, which is then out of turn.
  lemma CommitsBalanceResets(trace: seq<World>, acts: seq<Action>, i: nat)
    requires Execution(trace, acts) && i < |trace| && InOrderUpTo(trace, acts, i)
    ensures trace[i].row.Some? ==>
              trace[i].commits == trace[i].clears + if trace[i].row.value.provisioned then 1 else 0
    ensures forall a :: Enabled(trace[i], a) ==>
              && (Balanced(Step(trace[i], a)) <==> !Recommits(trace[i], a))
              && (Recommits(trace[i], a) ==> !InOrder(trace[i], a))
  {
    InvAlways(trace, acts, i);
    forall a | Enabled(trace[i], a)
      ensures Balanced(Step(trace[i], a)) <==> !Recommits(trace[i], a)
      ensures Recommits(trace[i], a) ==> !InOrder(trace[i], a)
    {
      BalanceKeptExactly(trace[i], a);
    }
  }

  /* ---- leases ---- */

  // Whether the process, if it is in a body, is still within the lease it acquired.
  predicate InLease(s: World, p: nat)
    requires p < |s.procs|
  {
    s.now < s.procs[p].since + LOCK_TTL
  }

  // No release, late, frees the lock that another goroutine of the same server has set.
  predicate TimelyRelease(s: World, a: Action)
    requires Enabled(s, a)
  {
    a.DoWrite? && a.w.Applied() && s.procs[a.p].pc.Unlock? && s.lock.Some?
    && s.lock.value.holder == s.procs[a.p].server && s.lock.value.owner != a.p
    ==> InLease(s, a.p)
  }

  ghost predicate TimelyReleasesUpTo(trace: seq<World>, acts: seq<Action>, i: nat)
    requires Path(trace, acts) && i < |trace|
  {
    forall j :: 0 <= j < i ==> TimelyRelease(trace[j], acts[j])
  }

  predicate OwnsLock(s: World, p: nat)
    requires p < |s.procs|
  {
    s.lock == Some(Lease(s.procs[p].server, p, s.procs[p].since + LOCK_TTL))
  }

  // A process in a body and within its lease holds the lock, and so is in turn.
  predicate LeaseHeld(s: World) {
    s.row.Some? ==>
      forall p :: 0 <= p < |s.procs| && Critical(s.procs[p].pc) && InLease(s, p) ==> OwnsLock(s, p) && InTurn(s, p)
  }

  lemma StepKeepsLease(s: World, a: Action)
    requires LeaseHeld(s) && DeletedInOrder(s) && Enabled(s, a) && TimelyRelease(s, a)
    ensures LeaseHeld(Step(s, a))
  {
    var t := Step(s, a);
    if t.row.Some? {
      forall p | 0 <= p < |t.procs| && Critical(t.procs[p].pc) && InLease(t, p) ensures OwnsLock(t, p) && InTurn(t, p) {
        if a.Tick? || a.p != p {
          OthersUntouched(s, a, p);
          LeaseOfOther(s, a, p);
        } else {
          LeaseOfActor(s, a);
        }
      }
    }
  }

  // No one else acquires a lease still running, and no one else's timely unlock or deletion frees it.
  lemma LeaseOfOther(s: World, a: Action, p: nat)
    requires LeaseHeld(s) && DeletedInOrder(s) && Enabled(s, a) && TimelyRelease(s, a) && p < |s.procs|
    requires Step(s, a).row.Some? && Critical(s.procs[p].pc) && InLease(s, p) && (a.Tick? || a.p != p)
    ensures Step(s, a).procs[p] == s.procs[p] && OwnsLock(Step(s, a), p) && InTurn(Step(s, a), p)
  {
    if !a.Tick? { assert s.procs[a.p] in s.procs; }
  }

  lemma LeaseOfActor(s: World, a: Action)
    requires LeaseHeld(s) && DeletedInOrder(s) && Enabled(s, a) && !a.Tick?
    requires Step(s, a).row.Some? && Critical(Step(s, a).procs[a.p].pc) && InLease(Step(s, a), a.p)
    ensures OwnsLock(Step(s, a), a.p) && InTurn(Step(s, a), a.p)
  {
    ActorsTurn(s, a);
  }

  lemma {:induction false} LeaseHeldAlways(trace: seq<World>, acts: seq<Action>, i: nat)
    requires Execution(trace, acts) && i < |trace| && TimelyReleasesUpTo(trace, acts, i)
    ensures LeaseHeld(trace[i]) && DeletedInOrder(trace[i])
  {
    if i > 0 {
      LeaseHeldAlways(trace, acts, i - 1);
      StepKeepsLease(trace[i - 1], acts[i - 1]);
      StepKeepsOrder(trace[i - 1], acts[i - 1]);
    }
  }

  // At most one process is inside a provision or reset body of an existing task and within its lease.
  lemma OneBodyInLease(trace: seq<World>, acts: seq<Action>, i: nat, p: nat, q: nat)
    requires Execution(trace, acts) && i < |trace| && TimelyReleasesUpTo(trace, acts, i)
    requires p < |trace[i].procs| && q < |trace[i].procs| && trace[i].row.Some?
    requires Critical(trace[i].procs[p].pc) && InLease(trace[i], p)
    requires Critical(trace[i].procs[q].pc) && InLease(trace[i], q)
    ensures p == q
  {
    LeaseHeldAlways(trace, acts, i);
  }

  // By the clock: writes that are delicate, or release another's lock, come within the lease of their body.
  predicate Timely(s: World, a: Action)
    requires Enabled(s, a)
  {
    TimelyRelease(s, a) && (Delicate(s, a) ==> InLease(s, a.p))
  }

  ghost predicate TimelyUpTo(trace: seq<World>, acts: seq<Action>, i: nat)
    requires Path(trace, acts) && i < |trace|
  {
    forall j :: 0 <= j < i ==> Timely(trace[j], acts[j])
  }

  // Whoever keeps its lease writes in order, so the main results hold of timely runs.
  lemma TimelyIsInOrder(trace: seq<World>, acts: seq<Action>, i: nat)
    requires Execution(trace, acts) && i < |trace| && TimelyUpTo(trace, acts, i)
    ensures InOrderUpTo(trace, acts, i)
  {
    forall j | 0 <= j < i ensures InOrder(trace[j], acts[j]) {
      forall k | 0 <= k < j ensures TimelyRelease(trace[k], acts[k]) { assert Timely(trace[k], acts[k]); }
      LeaseHeldAlways(trace, acts, j);
      assert Timely(trace[j], acts[j]);
    }
  }

  // Stronger: whoever still runs its body, runs it within the lease.
  predicate LeaseRespected(s: World) {
    forall p :: 0 <= p < |s.procs| && Critical(s.procs[p].pc) ==> InLease(s, p)
  }

  // If nobody has outlived a lease so far, at most one process is inside a body at all.
  lemma OneBodyAtATime(trace: seq<World>, acts: seq<Action>, i: nat, p: nat, q: nat)
    requires Execution(trace, acts) && i < |trace|
    requires forall j :: 0 <= j < i ==> LeaseRespected(trace[j])
    requires p < |trace[i].procs| && q < |trace[i].procs| && trace[i].row.Some?
    requires Critical(trace[i].procs[p].pc) && Critical(trace[i].procs[q].pc)
    ensures p == q
  {
    forall j | 0 <= j < i ensures TimelyRelease(trace[j], acts[j]) { assert LeaseRespected(trace[j]); }
    if i > 0 {
      assert LeaseRespected(trace[i - 1]);
      OneBodyAfter(trace, acts, i - 1, p, q);
    }
  }

  lemma OneBodyAfter(trace: seq<World>, acts: seq<Action>, i: nat, p: nat, q: nat)
    requires Execution(trace, acts) && i < |acts| && TimelyReleasesUpTo(trace, acts, i + 1) && LeaseRespected(trace[i])
    requires p < |trace[i + 1].procs| && q < |trace[i + 1].procs| && trace[i + 1].row.Some?
    requires Critical(trace[i + 1].procs[p].pc) && Critical(trace[i + 1].procs[q].pc)
    ensures p == q
  {
    var a := acts[i];
    assert trace[i + 1] == Step(trace[i], a);
    if a.Tick? {
      OneBodyInLease(trace, acts, i, p, q);
    } else {
      StaysInLease(trace[i], a, p);
      StaysInLease(trace[i], a, q);
      OneBodyInLease(trace, acts, i + 1, p, q);
    }
  }

  lemma StaysInLease(s: World, a: Action, p: nat)
    requires Enabled(s, a) && !a.Tick? && LeaseRespected(s)
    requires p < |Step(s, a).procs| && Critical(Step(s, a).procs[p].pc)
    ensures InLease(Step(s, a), p)
  {
    ActorsTurn(s, a);
    if a.p != p { OthersUntouched(s, a, p); }
  }

  /* ---- the session id: no hypothesis on leases ---- */

  predicate SessionsFollow(s: World) {
    s.row.Some? ==> forall proc <- s.procs :: proc.session == "" || proc.session == s.row.value.sessionId
  }

  lemma StepKeepsSessions(s: World, a: Action)
    requires SessionsFollow(s) && Enabled(s, a)
    ensures SessionsFollow(Step(s, a))
    ensures Step(s, a).row.Some? ==>
              && s.row.Some?
              && (s.row.value.sessionId != "" ==> Step(s, a).row.value.sessionId == s.row.value.sessionId)
  {
    var t := Step(s, a);
    if t.row.Some? {
      forall p | 0 <= p < |t.procs|
        ensures t.procs[p].session == "" || t.procs[p].session == t.row.value.sessionId
      {
        assert s.procs[p] in s.procs;
      }
    }
  }

  // In every run, leases respected or not, the durable session id is written once and never cleared,
  // and each handle's copy is empty or equal to it.
  lemma {:induction false} SessionWrittenOnce(trace: seq<World>, acts: seq<Action>, i: nat, j: nat)
    requires Execution(trace, acts) && i <= j < |trace| && trace[j].row.Some?
    ensures SessionsFollow(trace[j])
    ensures trace[i].row.Some?
    ensures trace[i].row.value.sessionId != "" ==> trace[j].row.value.sessionId == trace[i].row.value.sessionId
    decreases j
  {
    if 0 < j {
      StepKeepsRow(trace[j - 1], acts[j - 1]);
      SessionWrittenOnce(trace, acts, if i < j then i else j - 1, j - 1);
      StepKeepsSessions(trace[j - 1], acts[j - 1]);
    }
  }

  lemma StepKeepsRow(s: World, a: Action)
    requires Enabled(s, a) && Step(s, a).row.Some?
    ensures s.row.Some?
  {
  }

  /* ---- reachability ---- */

  // Neither a delicate write out of turn nor a late release of another's lock.
  predicate Orderly(s: World, a: Action)
    requires Enabled(s, a)
  {
    InOrder(s, a) && TimelyRelease(s, a)
  }

  // t can follow s in some run of orderly steps.
  ghost predicate Reaches(s: World, t: World) {
    exists trace, acts :: PathBetween(s, t, trace, acts)
  }

  ghost predicate PathBetween(s: World, t: World, trace: seq<World>, acts: seq<Action>) {
    Path(trace, acts) && trace[0] == s && trace[|acts|] == t
    && forall j :: 0 <= j < |acts| ==> Orderly(trace[j], acts[j])
  }

  lemma ReachesSelf(s: World)
    ensures Reaches(s, s)
  {
    assert PathBetween(s, s, [s], []);
  }

  lemma Then(s: World, t: World, a: Action) returns (u: World)
    requires Reaches(s, t) && Enabled(t, a) && Orderly(t, a)
    ensures u == Step(t, a) && Reaches(s, u)
  {
    u := Step(t, a);
    var trace, acts :| PathBetween(s, t, trace, acts);
    assert PathBetween(s, u, trace + [u], acts + [a]);
  }

  lemma ReachesFurther(s: World, t: World, u: World)
    requires Reaches(s, t) && Reaches(t, u)
    ensures Reaches(s, u)
  {
    var first, acts :| PathBetween(s, t, first, acts);
    var second, more :| PathBetween(t, u, second, more);
    var trace := first + second[1..];
    forall j | 0 <= j < |acts + more|
      ensures Enabled(trace[j], (acts + more)[j]) && trace[j + 1] == Step(trace[j], (acts + more)[j])
      ensures Orderly(trace[j], (acts + more)[j])
    {
      if j < |acts| { assert trace[j] == first[j]; } else { assert trace[j] == second[j - |acts|]; }
    }
    assert PathBetween(s, u, trace, acts + more);
  }
}
