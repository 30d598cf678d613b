/** What the operations on a schedule do to its row, its entry and its runs, field by field, and what stays off
    while a schedule is switched off. */
module ScheduleRows {
  import opened Wrappers
  import opened TaskTypes
  import opened Schedules

  /* ---- the row and the index after one operation ---- */

  // The entry of a schedule fits a row: a recurring one runs its expression, a one-shot its time, if it has one.
  predicate Indexed(w: World, id: Id, rec: Schedule) {
    match rec.cron
    case Every(expr) => id in w.entries && w.entries[id] in w.live && w.live[w.entries[id]] == CronJob(id, expr)
    case Once =>
      if rec.runAt.None? then id !in w.entries
      else id in w.entries && w.entries[id] in w.live && w.live[w.entries[id]] == OnceJob(id, rec.runAt.value)
  }

  lemma WithRowCurrent(w: World, v: World, id: Id)
    requires IndexOk(w) && v.entries == w.entries && v.live == w.live && v.nextEntry == w.nextEntry
    requires forall x :: x != id ==> (x in v.rows <==> x in w.rows) && (x in w.rows ==> v.rows[x] == w.rows[x])
    ensures Bijection(v) && forall x :: x != id ==> Current(v, x)
  {
    forall x | x != id ensures Current(v, x) { assert Current(w, x); }
  }

  // Switched on or off, a schedule changes in that and nothing else; on, it is indexed by its row; off, no entry
  // and no live job is left of it.
  lemma ToggleIs(w: World, id: Id, on: bool)
    requires IndexOk(w) && id in w.rows
    ensures var v := Step(w, Toggle(id, on));
            && v.rows == w.rows[id := w.rows[id].(enabled := on)] && v.runs == w.runs
            && (on ==> Indexed(v, id, w.rows[id]))
            && (!on ==> id !in v.entries && forall e <- v.live :: v.live[e].id != id)
  {
    var v := Step(w, Toggle(id, on));
    StepKeepsIndex(w, Toggle(id, on));
    if on {
      var x := SwitchedOn(w, id);
      WithRowCurrent(w, x, id);
      ReloadedSame(x, id);
    } else {
      RemovedKeeps(WithRow(w, id, w.rows[id].(enabled := false)), id);
    }
  }

  // A created schedule: what was asked for, enabled, due at its time or at the slot its expression gives.
  lemma CreateIs(w: World, id: Id, cron: Cron, runAt: Option<nat>, skip: bool, now: nat, slot: nat)
    requires IndexOk(w) && Enabled(w, Create(id, cron, runAt, skip, now, slot))
    ensures var v := Step(w, Create(id, cron, runAt, skip, now, slot));
            if cron.Once? && (runAt.None? || runAt.value < now) then v == w
            else
              && v.rows.Keys == w.rows.Keys + {id} && (forall x <- w.rows :: x != id ==> v.rows[x] == w.rows[x])
              && v.rows[id].cron == cron && v.rows[id].runAt == runAt && v.rows[id].skip == skip && v.rows[id].enabled
              && v.rows[id].nextRunAt == (if cron.Once? then runAt else Some(slot))
              && v.runs == w.runs && Indexed(v, id, v.rows[id])
  {
    if Creatable(cron, runAt, now) {
      var x := Inserted(w, id, NewRow(cron, runAt, skip, slot));
      WithRowCurrent(w, x, id);
      ReloadedSame(x, id);
    }
  }

  // An edited schedule: each field given is taken, each other one kept; the next time follows a new run time of
  // a one-shot, or else a new expression.
  lemma UpdateIs(w: World, id: Id, cron: Option<Cron>, runAt: Option<nat>, skip: Option<bool>, slot: nat)
    requires IndexOk(w) && id in w.rows
    ensures var v := Step(w, Update(id, cron, runAt, skip, slot));
            var before, after := w.rows[id], v.rows[id];
            && v.rows.Keys == w.rows.Keys && (forall x <- w.rows :: x != id ==> v.rows[x] == w.rows[x])
            && after.cron == (if cron.Some? then cron.value else before.cron)
            && after.runAt == (if runAt.Some? then runAt else before.runAt)
            && after.skip == (if skip.Some? then skip.value else before.skip)
            && after.enabled == before.enabled
            && after.nextRunAt == (if runAt.Some? && after.cron.Once? then runAt
                                   else if cron.Some? && cron.value.Every? then Some(slot)
                                   else before.nextRunAt)
            && v.runs == w.runs && (before.enabled ==> Indexed(v, id, after))
  {
    var op := Update(id, cron, runAt, skip, slot);
    var x := WithRow(w, id, Updated(w.rows[id], op));
    WithRowCurrent(w, x, id);
    ReloadedSame(x, id);
  }

  // A deleted schedule: row, entry and job are gone, its runs stay.
  lemma DeleteIs(w: World, id: Id)
    requires IndexOk(w) && id in w.rows
    ensures var v := Step(w, Delete(id));
            && v.rows == w.rows - {id} && v.runs == w.runs
            && id !in v.entries && forall e <- v.live :: v.live[e].id != id
  {
    StepKeepsIndex(w, Delete(id));
    RemovedKeeps(w, id);
  }

  // A fire: of an enabled schedule that is not held back, one new run at the start of its path; a one-shot is
  // switched off and has no next time, a recurring one has the next slot.
  lemma FireIs(w: World, id: Id, slot: nat)
    ensures var v := Step(w, Fire(id, slot));
            if id in w.rows && w.rows[id].enabled && (w.rows[id].skip ==> !HasActive(w.runs, id)) then
              && v.runs == w.runs + [Run(id, New, "", Launched, false, false)]
              && v.rows.Keys == w.rows.Keys && (forall x <- w.rows :: x != id ==> v.rows[x] == w.rows[x])
              && v.rows[id].cron == w.rows[id].cron && v.rows[id].runAt == w.rows[id].runAt
              && v.rows[id].skip == w.rows[id].skip
              && (w.rows[id].cron.Once? ==> !v.rows[id].enabled && v.rows[id].nextRunAt == None)
              && (w.rows[id].cron.Every? ==> v.rows[id].enabled && v.rows[id].nextRunAt == Some(slot))
            else v == w
  {
  }

  // A job that comes due fires its schedule; a one-shot job is then out of the index.
  lemma TickIs(w: World, entry: nat, slot: nat)
    requires IndexOk(w) && entry in w.live
    ensures var v, job := Step(w, Tick(entry, slot)), w.live[entry];
            && v.rows == Step(w, Fire(job.id, slot)).rows && v.runs == Step(w, Fire(job.id, slot)).runs
            && (job.OnceJob? ==> job.id !in v.entries && entry !in v.live)
            && (job.CronJob? ==> v.entries == w.entries && v.live == w.live)
  {
  }

  // In every reachable world an enabled recurring schedule runs its expression, and an enabled one-shot that is
  // indexed its time.
  lemma JobsAreCurrent(trace: seq<World>, ops: seq<Op>, i: nat, id: Id)
    requires Execution(trace, ops) && i < |trace| && id in trace[i].rows && trace[i].rows[id].enabled
    ensures var w, rec := trace[i], trace[i].rows[id];
            && (rec.cron.Every? ==> Indexed(w, id, rec))
            && (rec.cron.Once? && id in w.entries ==> Indexed(w, id, rec))
  {
    IndexAlwaysAgrees(trace, ops, i);
    assert Current(trace[i], id);
  }

  /* ---- switched off ---- */

  predicate SwitchesOn(op: Op, id: Id) { op.Toggle? && op.id == id && op.on }

  predicate IsOff(w: World, id: Id) { id in w.rows ==> !w.rows[id].enabled }

  lemma FiredWhileOff(w: World, id': Id, slot: nat, id: Id)
    requires IsOff(w, id)
    ensures IsOff(Fired(w, id', slot), id) && RunsOf(Fired(w, id', slot).runs, id) == RunsOf(w.runs, id)
  {
    if Fires(w, id') {
      var v := Fired(w, id', slot);
      assert v.runs[..|w.runs|] == w.runs;
    }
  }

  lemma StepWhileOff(w: World, op: Op, id: Id)
    requires Enabled(w, op) && id in w.enables && IsOff(w, id) && !SwitchesOn(op, id)
    ensures IsOff(Step(w, op), id) && RunsOf(Step(w, op).runs, id) == RunsOf(w.runs, id)
  {
    match op
    case Start(_) =>
      StartSame(w, op);
      RunsOfSame(w.runs, Step(w, op).runs, id);
    case Create(x, cron, runAt, skip, now, slot) =>
      if Creatable(cron, runAt, now) { ReloadedSame(Inserted(w, x, NewRow(cron, runAt, skip, slot)), x); }
    case Update(x, _, _, _, _) => if x in w.rows { ReloadedSame(WithRow(w, x, Updated(w.rows[x], op)), x); }
    case Toggle(x, on) => if x in w.rows { ReloadedSame(SwitchedOn(w, x), x); }
    case Delete(_) =>
    case Tick(entry, slot) =>
      var job := w.live[entry];
      FiredWhileOff(if job.OnceJob? then Removed(w, job.id) else w, job.id, slot, id);
    case Fire(x, slot) => FiredWhileOff(w, x, slot, id);
    case Progress(_, _) => RunsOfSame(w.runs, Step(w, op).runs, id);
    case UserMessage(_, _) => RunsOfSame(w.runs, Step(w, op).runs, id);
  }

  // Main result: from where a schedule is off, until it is switched on, no tick, fire, edit or restart starts a
  // run of it.
  lemma {:induction false} NoRunsWhileOff(trace: seq<World>, ops: seq<Op>, i: nat, j: nat, id: Id)
    requires Execution(trace, ops) && i <= j < |trace| && id in trace[i].enables && IsOff(trace[i], id)
    requires forall k :: i <= k < j ==> !SwitchesOn(ops[k], id)
    ensures id in trace[j].enables && IsOff(trace[j], id) && RunsOf(trace[j].runs, id) == RunsOf(trace[i].runs, id)
    decreases j - i
  {
    if i < j {
      NoRunsWhileOff(trace, ops, i, j - 1, id);
      StepWhileOff(trace[j - 1], ops[j - 1], id);
      EnablesStay(trace[j - 1], ops[j - 1], id);
    }
  }

  lemma EnablesStay(w: World, op: Op, id: Id)
    requires Enabled(w, op) && id in w.enables
    ensures id in Step(w, op).enables
  {
    StartSame(w, op);
    match op
    case Create(x, cron, runAt, skip, now, slot) =>
      if Creatable(cron, runAt, now) { ReloadedSame(Inserted(w, x, NewRow(cron, runAt, skip, slot)), x); }
    case Update(x, _, _, _, _) => if x in w.rows { ReloadedSame(WithRow(w, x, Updated(w.rows[x], op)), x); }
    case Toggle(x, on) => if x in w.rows { ReloadedSame(SwitchedOn(w, x), x); }
    case _ =>
  }

  // So from a toggle-off to the next toggle-on.
  lemma NoRunsAfterToggleOff(trace: seq<World>, ops: seq<Op>, i: nat, j: nat, id: Id)
    requires Execution(trace, ops) && i < j < |trace| && ops[i] == Toggle(id, false) && id in trace[i].rows
    requires forall k :: i < k < j ==> !SwitchesOn(ops[k], id)
    ensures RunsOf(trace[j].runs, id) == RunsOf(trace[i].runs, id)
    ensures id in trace[j].rows ==> !trace[j].rows[id].enabled
  {
    IndexAlwaysAgrees(trace, ops, i);
    KnownAlways(trace, ops, i);
    assert trace[i + 1] == Step(trace[i], ops[i]);
    ToggleIs(trace[i], id, false);
    EnablesStay(trace[i], ops[i], id);
    NoRunsWhileOff(trace, ops, i + 1, j, id);
  }

  lemma {:induction false} KnownAlways(trace: seq<World>, ops: seq<Op>, i: nat)
    requires Execution(trace, ops) && i < |trace|
    ensures Known(trace[i])
  {
    if i > 0 {
      KnownAlways(trace, ops, i - 1);
      StepKeepsKnown(trace[i - 1], ops[i - 1]);
    }
  }

  /* ---- runs ---- */

  // Of a run without an outcome: a stream that ends without error completes it, one that ends by deadline or
  // cancellation times it out, and any other error, of the stream or of the provisioning, fails it. The rest of
  // the run stays.
  lemma OutcomesAre(w: World, i: nat, e: RunEvent)
    requires Enabled(w, Progress(i, e)) && w.runs[i].outcome == ""
    ensures var v := Step(w, Progress(i, e));
            && |v.runs| == |w.runs| && (forall j :: 0 <= j < |w.runs| && j != i ==> v.runs[j] == w.runs[j])
            && v.rows == w.rows && v.entries == w.entries && v.live == w.live
            && v.runs[i].sched == w.runs[i].sched
            && v.runs[i].outcome ==
                 (if e == StreamEnds(NoError) then "completed"
                  else if e == StreamEnds(DeadlineExceeded) || e == StreamEnds(Canceled) then "timeout"
                  else if e == StreamEnds(OtherError) || e.StoreFailed? then "failed"
                  else "")
  {
  }

  // The state of a run's task: provisioning, then running if its callback said so, or an error.
  lemma StatesAre(w: World, i: nat, e: RunEvent)
    requires Enabled(w, Progress(i, e))
    ensures var before, after := w.runs[i].state, Step(w, Progress(i, e)).runs[i].state;
            && (e.SetProvisioning? ==> after == State.Provisioning)
            && (e == Provisioned(true) ==> after == Running)
            && (e.StoreError? ==> after == Error)
            && (e == Provisioned(false) || e.ProvisionFails? || e.StoreFailed? || e.StreamEnds? ==> after == before)
  {
  }
}
