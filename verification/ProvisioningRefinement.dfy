/** The step machine of ProvisioningProtocol does what TaskOps says: a process that runs one operation
    alone and without failures takes the row and the hash where the operation's specification takes them. */
module ProvisioningRefinement {
  import opened TaskTypes
  import opened Wrappers
  import opened ProvisioningProtocol
  import Ops = TaskOps

  // The world's stores as the backend of a task whose handle has the given fields.
  function Stores(fields: Ops.Fields, s: World): Ops.Snapshot
    requires s.row.Some?
  {
    Ops.Snapshot(fields, Ops.MySql(s.row.value, s.hash))
  }

  predicate Ready(s: World, p: nat) {
    p < |s.procs| && s.procs[p].pc.Idle? && LockFree(s) && s.row.Some?
  }

  // t is s after p ran by itself: the stores hold target, the lock is free, p stands at pc.
  predicate RanAlone(s: World, t: World, p: nat, pc: Pc, target: Ops.Backend)
    requires p < |s.procs|
  {
    && t.row.Some? && Ops.MySql(t.row.value, t.hash) == target
    && t.now == s.now && t.turns == s.turns + 1
    && t.procs == s.procs[p := s.procs[p].(pc := pc, since := s.now, turn := s.turns + 1)]
  }

  lemma BeginAndAcquire(s: World, p: nat, op: Op) returns (t: World)
    requires Ready(s, p)
    ensures Reaches(s, t) && RanAlone(s, t, p, AfterLock(op), Ops.MySql(s.row.value, s.hash)) && OwnsLock(t, p)
  {
    ReachesSelf(s);
    t := Then(s, s, Begin(p, op));
    t := Then(s, t, Acquire(p));
  }

  lemma Finish(s: World, t: World, p: nat, target: Ops.Backend) returns (u: World)
    requires p < |s.procs| && Reaches(s, t) && RanAlone(s, t, p, Unlock, target) && OwnsLock(t, p)
    ensures Reaches(s, u) && RanAlone(s, u, p, Idle, target) && u.lock.None?
  {
    u := Then(s, t, DoWrite(p, Stored));
  }

  lemma RunCallback(s0: World, s: World, p: nat, fn: Ops.Callback, fields: Ops.Fields) returns (t: World)
    requires Reaches(s0, s) && p < |s.procs| && s.procs[p].pc.Callback? && s.row.Some? && InTurn(s, p)
    ensures Reaches(s0, t) && t == s.(row := t.row, hash := t.hash) && t.row.Some?
    ensures Ops.MySql(t.row.value, t.hash) == Ops.AfterCallback(Stores(fields, s), fn).backend
  {
    t := s;
    if fn.route.Some? {
      t := Then(s0, t, WriteRunning(p, fn.route.value, Stored));
      t := Then(s0, t, DoWrite(p, Stored));
      assert t.procs == s.procs;
    }
  }

  lemma VerifyAndCommit(s0: World, s: World, p: nat) returns (t: World)
    requires Reaches(s0, s) && p < |s.procs| && s.procs[p].pc.Callback? && s.row.Some? && InTurn(s, p)
    ensures Reaches(s0, t) && t.procs == s.procs[p := s.procs[p].(pc := Unlock)]
    ensures t.lock == s.lock && t.now == s.now && t.turns == s.turns && t.hash == s.hash
    ensures t.row == Some(if s.row.value.state == Running && Mapped(s.hash) then s.row.value.(provisioned := true)
                          else s.row.value)
  {
    t := Then(s0, s, CallbackReturns(p));
    t := Then(s0, t, Read(p, true));
    if s.row.value.state == Running {
      t := Then(s0, t, Read(p, true));
      if Mapped(s.hash) {
        t := Then(s0, t, DoWrite(p, Stored));
      }
    }
  }

  lemma AloneEnsure(s: World, p: nat, fields: Ops.Fields, fn: Ops.Callback) returns (t: World)
    requires Ready(s, p)
    ensures Reaches(s, t) && t.lock.None?
    ensures RanAlone(s, t, p, Idle, Ops.Step(Stores(fields, s), Ops.EnsureProvisioned(fn)).backend)
  {
    var target := Ops.Step(Stores(fields, s), Ops.EnsureProvisioned(fn)).backend;
    t := BeginAndAcquire(s, p, Ensure);
    t := Then(s, t, Read(p, true));
    if !s.row.value.provisioned {
      t := RunCallback(s, t, p, fn, fields);
      if fn.ok {
        t := VerifyAndCommit(s, t, p);
      } else {
        t := Then(s, t, CallbackFails(p));
      }
    }
    t := Finish(s, t, p, target);
  }

  lemma AloneReset(s: World, t0: World, p: nat, fields: Ops.Fields) returns (t: World)
    requires p < |s.procs| == |t0.procs| && s.row.Some? && Reaches(s, t0) && OwnsLock(t0, p)
    requires RanAlone(s, t0, p, ClearRow, Stores(fields, s).backend)
    ensures Reaches(s, t) && t.lock.None?
    ensures RanAlone(s, t, p, Idle, Ops.Cleared(Stores(fields, s)).backend)
  {
    t := Then(s, t0, DoWrite(p, Stored));
    t := Then(s, t, DoWrite(p, Stored));
    t := Finish(s, t, p, Ops.Cleared(Stores(fields, s)).backend);
  }

  lemma AloneReprovision(s: World, p: nat, fields: Ops.Fields) returns (t: World)
    requires Ready(s, p)
    ensures Reaches(s, t) && t.lock.None?
    ensures RanAlone(s, t, p, Idle, Ops.Step(Stores(fields, s), Ops.ResetForReprovisioning).backend)
  {
    t := BeginAndAcquire(s, p, Reprovision);
    t := AloneReset(s, t, p, fields);
  }

  lemma AloneResetIfExpired(s: World, p: nat, fields: Ops.Fields, isAlive: string -> Ops.Liveness) returns (t: World)
    requires Ready(s, p)
    ensures Reaches(s, t) && t.lock.None?
    ensures RanAlone(s, t, p, Idle, Ops.Step(Stores(fields, s), Ops.ResetIfExpired(isAlive)).backend)
  {
    t := BeginAndAcquire(s, p, IfExpired);
    t := Then(s, t, Read(p, true));
    if s.row.value.provisioned {
      t := Then(s, t, Read(p, true));
      if Mapped(s.hash) {
        var dead := isAlive(s.hash.value.sandboxId).Dead?;
        t := Then(s, t, LivenessAnswer(p, dead));
        if dead {
          t := AloneReset(s, t, p, fields);
          return;
        }
      }
    }
    t := Finish(s, t, p, Stores(fields, s).backend);
  }

  predicate Handles(s: World, p: nat) {
    p < |s.procs| && s.procs[p].pc.Idle? && s.row.Some?
  }

  // The unlocked writes take the stores where SetProvisioning, SetError and SetSessionId take them, whatever
  // other processes are doing.
  lemma UnlockedWritesAgree(s: World, p: nat, fields: Ops.Fields, msg: string)
    requires Handles(s, p)
    ensures var t := Step(s, WriteProvisioning(p, Stored));
            t == s.(row := t.row) && Handles(t, p)
            && Stores(fields, t).backend == Ops.Step(Stores(fields, s), Ops.SetProvisioning).backend
    ensures var t := Step(s, WriteError(p, msg, Stored));
            t == s.(row := t.row) && Handles(t, p)
            && Stores(fields, t).backend == Ops.Step(Stores(fields, s), Ops.SetError(msg)).backend
  {
  }

  // So does the session id, in the row and in the handle's own copy; and a handle just loaded has the row's.
  lemma SessionWriteAgrees(s: World, p: nat, fields: Ops.Fields, id: string)
    requires Handles(s, p) && fields.sessionId == s.procs[p].session
    ensures var t := Step(s, WriteSession(p, id, Stored));
            var after := Ops.Step(Stores(fields, s), Ops.SetSessionId(id));
            && Handles(t, p) && Stores(fields, t).backend == after.backend
            && t == s.(row := t.row, procs := s.procs[p := s.procs[p].(session := after.fields.sessionId)])
    ensures var t := Step(s, Load(p));
            t == s.(procs := s.procs[p := s.procs[p].(session := Ops.Loaded(Stores(fields, s)).sessionId)])
  {
    assert s.procs[p := s.procs[p]] == s.procs;
  }

  // Deleting a task removes its row first and then its Redis keys, the lock among them.
  lemma AloneDelete(s: World, p: nat) returns (t: World)
    requires Handles(s, p)
    ensures Reaches(s, t) && t == s.(row := None, hash := None, lock := None)
  {
    ReachesSelf(s);
    t := Then(s, s, DeleteRow(p, Stored));
    t := Then(s, t, DoWrite(p, Stored));
    assert t.procs == s.procs;
  }

  // A failed read, callback, liveness answer or write ends a body at its unlock, and changes neither row nor hash
  // unless the write was stored; a failed running state is passed over.
  lemma FailuresUnlock(s: World, p: nat, w: Write)
    requires p < |s.procs|
    ensures var a := Read(p, false);
            Enabled(s, a) ==> Step(s, a) == s.(procs := s.procs[p := s.procs[p].(pc := Unlock)])
    ensures var a := CallbackFails(p);
            Enabled(s, a) ==> Step(s, a) == s.(procs := s.procs[p := s.procs[p].(pc := Unlock)])
    ensures var a := LivenessAnswer(p, false);
            Enabled(s, a) ==> Step(s, a) == s.(procs := s.procs[p := s.procs[p].(pc := Unlock)])
    ensures var a, pc := DoWrite(p, w), s.procs[p].pc;
            Enabled(s, a) && !w.Reported() && (pc.ClearRow? || pc.DeleteHash? || pc.SetFlag?) ==>
              && Step(s, a).procs == s.procs[p := s.procs[p].(pc := Unlock)]
              && (w.Lost? ==> Step(s, a) == s.(procs := Step(s, a).procs))
    ensures var a := DoWrite(p, w);
            Enabled(s, a) && s.procs[p].pc.Unlock? ==> Step(s, a).procs == s.procs[p := s.procs[p].(pc := Idle)]
    ensures forall r :: Enabled(s, WriteRunning(p, r, Lost)) ==> Step(s, WriteRunning(p, r, Lost)) == s
  {
  }
}
