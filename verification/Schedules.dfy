/** Scheduled tasks: the rows, the in-memory index over live cron entries, and the runs that fires create.
    Each operation of the service, each job tick and each store write of a run is one atomic step, and
    database calls succeed. Cron expressions are opaque. */
module Schedules {
  import opened Wrappers
  import opened TaskTypes

  type Id = string

  datatype Cron = Once | Every(expr: string)

  // skip: concurrency 0, no fire while a run is active.
  datatype Schedule = Schedule(cron: Cron, runAt: Option<nat>, nextRunAt: Option<nat>, enabled: bool, skip: bool)

  // A live entry of the cron runner.
  datatype Job = CronJob(id: Id, expr: string) | OnceJob(id: Id, at: nat)

  // Where the goroutine of a run stands.
  datatype Phase = Launched | Provisioning | Streaming | Failing | Failed | Finished

  // lost: the goroutine died with its process. touched: a user has messaged the run's task.
  datatype Run = Run(sched: Id, state: State, outcome: string, phase: Phase, lost: bool, touched: bool)

  // enables: how often each schedule, from its creation on, was enabled by a toggle.
  datatype World = World(rows: map<Id, Schedule>, entries: map<Id, nat>, live: map<nat, Job>, nextEntry: nat,
                         runs: seq<Run>, enables: map<Id, nat>)

  // What StreamMessage returns.
  datatype StreamResult = NoError | DeadlineExceeded | Canceled | OtherError

  datatype RunEvent =
    | SetProvisioning
    | Provisioned(calledBack: bool)
    | ProvisionFails
    | StoreError
    | StoreFailed
    | StreamEnds(result: StreamResult)

  // slot: what the cron expression gives as the next fire time.
  datatype Op =
    | Start(order: seq<Id>)
    | Create(id: Id, cron: Cron, runAt: Option<nat>, skip: bool, now: nat, slot: nat)
    | Update(id: Id, cron': Option<Cron>, runAt': Option<nat>, skip': Option<bool>, slot: nat)
    | Toggle(id: Id, on: bool)
    | Delete(id: Id)
    | Tick(entry: nat, slot: nat)
    | Fire(id: Id, slot: nat)
    | Progress(run: nat, event: RunEvent)
    | UserMessage(run: nat, state: State)

  /* ---- the index ---- */

  // The job that registering a schedule makes; a one-shot without a time makes none.
  function JobOf(id: Id, rec: Schedule): Option<Job> {
    match rec.cron
    case Every(expr) => Some(CronJob(id, expr))
    case Once => if rec.runAt.Some? then Some(OnceJob(id, rec.runAt.value)) else None
  }

  function Removed(w: World, id: Id): World {
    if id in w.entries then w.(live := w.live - {w.entries[id]}, entries := w.entries - {id}) else w
  }

  function Registered(w: World, id: Id, rec: Schedule): World {
    match JobOf(id, rec)
    case None => w
    case Some(job) =>
      w.(live := w.live[w.nextEntry := job], entries := w.entries[id := w.nextEntry], nextEntry := w.nextEntry + 1)
  }

  function Reloaded(w: World, id: Id): World {
    if id in w.rows && w.rows[id].enabled then Registered(Removed(w, id), id, w.rows[id]) else w
  }

  function RegisteredAll(w: World, order: seq<Id>): World
    requires forall id <- order :: id in w.rows
    ensures RegisteredAll(w, order).rows == w.rows
  {
    if order == [] then w
    else
      var before := RegisteredAll(w, order[..|order| - 1]);
      Registered(before, order[|order| - 1], w.rows[order[|order| - 1]])
  }

  /* ---- fires ---- */

  predicate IsActive(r: Run, id: Id) {
    r.sched == id && !r.state.Error? && !r.state.New? && r.outcome == ""
  }

  predicate HasActive(runs: seq<Run>, id: Id) {
    exists r :: r in runs && IsActive(r, id)
  }

  // RunFire's database section.
  predicate Fires(w: World, id: Id) {
    id in w.rows && w.rows[id].enabled && !(w.rows[id].skip && HasActive(w.runs, id))
  }

  function Fired(w: World, id: Id, slot: nat): World {
    if !Fires(w, id) then w
    else
      var rec := w.rows[id];
      w.(runs := w.runs + [Run(id, New, "", Launched, false, false)],
         rows := w.rows[id := if rec.cron.Once? then rec.(enabled := false, nextRunAt := None)
                              else rec.(nextRunAt := Some(slot))])
  }

  function Updated(rec: Schedule, op: Op): Schedule
    requires op.Update?
  {
    var a := if op.cron'.None? then rec
             else if op.cron'.value.Once? then rec.(cron := Once)
             else rec.(cron := op.cron'.value, nextRunAt := Some(op.slot));
    var b := if op.runAt'.None? then a
             else a.(runAt := op.runAt', nextRunAt := if a.cron.Once? then op.runAt' else a.nextRunAt);
    if op.skip'.None? then b else b.(skip := op.skip'.value)
  }

  // A one-shot needs a time that is not past.
  predicate Creatable(cron: Cron, runAt: Option<nat>, now: nat) {
    cron.Once? ==> runAt.Some? && runAt.value >= now
  }

  predicate CanProgress(r: Run, e: RunEvent) {
    !r.lost &&
    match e
    case SetProvisioning => r.phase.Launched?
    case Provisioned(_) | ProvisionFails => r.phase.Provisioning?
    case StoreError => r.phase.Failing?
    case StoreFailed => r.phase.Failed?
    case StreamEnds(_) => r.phase.Streaming?
  }

  function OutcomeOf(result: StreamResult): string {
    match result
    case NoError => "completed"
    case DeadlineExceeded | Canceled => "timeout"
    case OtherError => "failed"
  }

  // SetRunOutcome keeps the first outcome.
  function WithOutcome(r: Run, o: string): Run {
    if r.outcome == "" then r.(outcome := o, phase := Finished) else r.(phase := Finished)
  }

  function Progressed(r: Run, e: RunEvent): Run {
    match e
    case SetProvisioning => r.(state := State.Provisioning, phase := Phase.Provisioning)
    case Provisioned(calledBack) => r.(state := if calledBack then Running else r.state, phase := Streaming)
    case ProvisionFails => r.(phase := Failing)
    case StoreError => r.(state := Error, phase := Failed)
    case StoreFailed => WithOutcome(r, "failed")
    case StreamEnds(result) => WithOutcome(r, OutcomeOf(result))
  }

  predicate Enabled(w: World, op: Op) {
    match op
    case Start(order) =>
      && (forall id <- order :: id in w.rows && w.rows[id].enabled)
      && (forall id <- w.rows :: w.rows[id].enabled ==> id in order)
      && (forall i, j :: 0 <= i < j < |order| ==> order[i] != order[j])
    case Create(id, _, _, _, _, _) => id !in w.enables
    case Tick(entry, _) => entry in w.live
    case Progress(i, e) => i < |w.runs| && CanProgress(w.runs[i], e)
    case UserMessage(i, _) => i < |w.runs|
    case _ => true
  }

  // A new process: an empty cron runner; the goroutines of the old one are gone.
  function Restarted(w: World): World {
    w.(entries := map[], live := map[], nextEntry := 0,
       runs := seq(|w.runs|, i requires 0 <= i < |w.runs| => w.runs[i].(lost := true)))
  }

  function NewRow(cron: Cron, runAt: Option<nat>, skip: bool, slot: nat): Schedule {
    Schedule(cron, runAt, if cron.Once? then runAt else Some(slot), true, skip)
  }

  function WithRow(w: World, id: Id, rec: Schedule): World { w.(rows := w.rows[id := rec]) }

  function Inserted(w: World, id: Id, rec: Schedule): World {
    WithRow(w, id, rec).(enables := w.enables[id := 0])
  }

  function SwitchedOn(w: World, id: Id): World
    requires id in w.rows
  {
    WithRow(w, id, w.rows[id].(enabled := true)).(
      enables := w.enables[id := (if id in w.enables then w.enables[id] else 0) + 1])
  }

  function Step(w: World, op: Op): World
    requires Enabled(w, op)
  {
    match op
    case Start(order) => RegisteredAll(Restarted(w), order)
    case Create(id, cron, runAt, skip, now, slot) =>
      if Creatable(cron, runAt, now) then Reloaded(Inserted(w, id, NewRow(cron, runAt, skip, slot)), id) else w
    case Update(id, _, _, _, _) =>
      if id in w.rows then Reloaded(WithRow(w, id, Updated(w.rows[id], op)), id) else w
    case Toggle(id, on) =>
      if id !in w.rows then w
      else if on then Reloaded(SwitchedOn(w, id), id)
      else Removed(WithRow(w, id, w.rows[id].(enabled := false)), id)
    case Delete(id) =>
      if id in w.rows then Removed(w, id).(rows := w.rows - {id}) else w
    case Tick(entry, slot) =>
      var job := w.live[entry];
      Fired(if job.OnceJob? then Removed(w, job.id) else w, job.id, slot)
    case Fire(id, slot) => Fired(w, id, slot)
    case Progress(i, e) => w.(runs := w.runs[i := Progressed(w.runs[i], e)])
    case UserMessage(i, state) => w.(runs := w.runs[i := w.runs[i].(state := state, touched := true)])
  }

  /* ---- executions ---- */

  const EMPTY := World(map[], map[], map[], 0, [], map[])

  ghost predicate Execution(trace: seq<World>, ops: seq<Op>) {
    && |trace| == |ops| + 1 && trace[0] == EMPTY
    && forall i :: 0 <= i < |ops| ==> Enabled(trace[i], ops[i]) && trace[i + 1] == Step(trace[i], ops[i])
  }

  /* ---- the index agrees with the cron runner and with the rows ---- */

  // entries and the live cron entries name each other.
  predicate Bijection(w: World) {
    && (forall id <- w.entries :: w.entries[id] in w.live && w.live[w.entries[id]].id == id)
    && (forall e <- w.live :: w.live[e].id in w.entries && w.entries[w.live[e].id] == e)
    && (forall e <- w.live :: e < w.nextEntry)
  }

  // An enabled schedule is indexed under the job its row asks for, a recurring one always is, and a
  // recurring job belongs to an enabled schedule.
  predicate Current(w: World, id: Id)
    requires Bijection(w)
  {
    && (id in w.entries ==> id in w.rows)
    && (id in w.rows && w.rows[id].enabled && id in w.entries ==> Some(w.live[w.entries[id]]) == JobOf(id, w.rows[id]))
    && (id in w.rows && w.rows[id].enabled && w.rows[id].cron.Every? ==> id in w.entries)
    && (id in w.entries && w.live[w.entries[id]].CronJob? ==> w.rows[id].enabled)
  }

  ghost predicate IndexOk(w: World) {
    Bijection(w) && forall id :: Current(w, id)
  }

  lemma RemovedKeeps(w: World, id: Id)
    requires Bijection(w)
    ensures Bijection(Removed(w, id)) && id !in Removed(w, id).entries
    ensures forall x :: x != id ==> (x in Removed(w, id).entries <==> x in w.entries)
    ensures forall x :: x != id && x in w.entries ==>
              && Removed(w, id).entries[x] == w.entries[x]
              && Removed(w, id).live[w.entries[x]] == w.live[w.entries[x]]
  {
  }

  lemma RegisteredKeeps(w: World, id: Id, rec: Schedule)
    requires Bijection(w) && id !in w.entries
    ensures var v := Registered(w, id, rec);
            && Bijection(v)
            && (id in v.entries <==> JobOf(id, rec).Some?)
            && (id in v.entries ==> Some(v.live[v.entries[id]]) == JobOf(id, rec))
            && (forall x :: x != id ==> (x in v.entries <==> x in w.entries))
            && (forall x :: x != id && x in w.entries ==>
                  v.entries[x] == w.entries[x] && v.live[w.entries[x]] == w.live[w.entries[x]])
  {
  }

  // Reloading makes one schedule current, whatever its row was before.
  lemma ReloadedCurrent(w: World, id: Id)
    requires Bijection(w) && id in w.rows
    requires forall x :: x != id ==> Current(w, x)
    requires !w.rows[id].enabled ==> id in w.entries ==> w.live[w.entries[id]].OnceJob?
    ensures IndexOk(Reloaded(w, id))
  {
    if w.rows[id].enabled {
      RemovedKeeps(w, id);
      RegisteredKeeps(Removed(w, id), id, w.rows[id]);
      forall x ensures Current(Reloaded(w, id), x) { assert x != id ==> Current(w, x); }
    } else {
      forall x ensures Current(w, x) { assert x != id ==> Current(w, x); }
    }
  }

  lemma RemovedCurrent(w: World, id: Id)
    requires Bijection(w) && forall x :: x != id ==> Current(w, x)
    requires id in w.rows && w.rows[id].enabled ==> w.rows[id].cron.Once?
    ensures IndexOk(Removed(w, id))
  {
    RemovedKeeps(w, id);
    forall x ensures Current(Removed(w, id), x) { assert x != id ==> Current(w, x); }
  }

  lemma FiredCurrent(w: World, id: Id, slot: nat)
    requires IndexOk(w)
    ensures IndexOk(Fired(w, id, slot))
  {
    forall x ensures Current(Fired(w, id, slot), x) { assert Current(w, x); }
  }

  // Registering the enabled rows one after the other into an empty index.
  lemma {:induction false} StartIndexes(w: World, order: seq<Id>)
    requires w.entries == map[] && w.live == map[]
    requires forall id <- order :: id in w.rows && w.rows[id].enabled
    requires forall i, j :: 0 <= i < j < |order| ==> order[i] != order[j]
    ensures var v := RegisteredAll(w, order);
            && Bijection(v)
            && (forall id :: id in v.entries <==> id in order && JobOf(id, w.rows[id]).Some?)
            && (forall id :: id in v.entries ==> Some(v.live[v.entries[id]]) == JobOf(id, w.rows[id]))
  {
    if order != [] {
      var init, id := order[..|order| - 1], order[|order| - 1];
      StartIndexes(w, init);
      assert id !in init;
      RegisteredKeeps(RegisteredAll(w, init), id, w.rows[id]);
      assert forall x :: x in order <==> x in init || x == id;
    }
  }

  // Any new row for one schedule, once reloaded, is current.
  lemma RowReloaded(w: World, id: Id, rec: Schedule, enables: map<Id, nat>)
    requires IndexOk(w)
    requires rec.enabled || (id in w.rows && !w.rows[id].enabled)
    ensures IndexOk(Reloaded(WithRow(w, id, rec).(enables := enables), id))
  {
    var x := WithRow(w, id, rec).(enables := enables);
    forall y | y != id ensures Current(x, y) { assert Current(w, y); }
    assert Current(w, id);
    ReloadedCurrent(x, id);
  }

  lemma StartKeepsIndex(w: World, order: seq<Id>)
    requires Enabled(w, Start(order))
    ensures IndexOk(Step(w, Start(order)))
  {
    StartIndexes(Restarted(w), order);
    forall y ensures Current(Step(w, Start(order)), y) { }
  }

  lemma OffKeepsIndex(w: World, id: Id)
    requires IndexOk(w) && id in w.rows
    ensures IndexOk(Step(w, Toggle(id, false)))
  {
    var x := WithRow(w, id, w.rows[id].(enabled := false));
    forall y | y != id ensures Current(x, y) { assert Current(w, y); }
    RemovedCurrent(x, id);
  }

  lemma DeleteKeepsIndex(w: World, id: Id)
    requires IndexOk(w)
    ensures IndexOk(Step(w, Delete(id)))
  {
    RemovedKeeps(w, id);
    forall y ensures Current(Step(w, Delete(id)), y) { assert Current(w, y); }
  }

  lemma TickKeepsIndex(w: World, entry: nat, slot: nat)
    requires IndexOk(w) && entry in w.live
    ensures IndexOk(Step(w, Tick(entry, slot)))
  {
    var job := w.live[entry];
    assert Current(w, job.id);
    if job.OnceJob? {
      forall y | y != job.id ensures Current(w, y) { }
      RemovedCurrent(w, job.id);
      FiredCurrent(Removed(w, job.id), job.id, slot);
    } else {
      FiredCurrent(w, job.id, slot);
    }
  }

  lemma StepKeepsIndex(w: World, op: Op)
    requires IndexOk(w) && Enabled(w, op)
    ensures IndexOk(Step(w, op))
  {
    match op
    case Start(order) => StartKeepsIndex(w, order);
    case Create(id, cron, runAt, skip, now, slot) =>
      if Creatable(cron, runAt, now) {
        RowReloaded(w, id, NewRow(cron, runAt, skip, slot), w.enables[id := 0]);
      }
    case Update(id, _, _, _, _) =>
      if id in w.rows { RowReloaded(w, id, Updated(w.rows[id], op), w.enables); }
    case Toggle(id, on) =>
      if id in w.rows {
        if on {
          RowReloaded(w, id, SwitchedOn(w, id).rows[id], SwitchedOn(w, id).enables);
        } else {
          OffKeepsIndex(w, id);
        }
      }
    case Delete(id) => DeleteKeepsIndex(w, id);
    case Tick(entry, slot) => TickKeepsIndex(w, entry, slot);
    case Fire(id, slot) => FiredCurrent(w, id, slot);
    case Progress(_, _) => forall y ensures Current(Step(w, op), y) { assert Current(w, y); }
    case UserMessage(_, _) => forall y ensures Current(Step(w, op), y) { assert Current(w, y); }
  }

  // Main result: after any sequence of operations, ticks, fires and restarts the index is a bijection
  // onto the live cron entries, and every enabled recurring schedule has one, with its current expression.
  lemma {:induction false} IndexAlwaysAgrees(trace: seq<World>, ops: seq<Op>, i: nat)
    requires Execution(trace, ops) && i < |trace|
    ensures IndexOk(trace[i])
  {
    if i > 0 {
      IndexAlwaysAgrees(trace, ops, i - 1);
      StepKeepsIndex(trace[i - 1], ops[i - 1]);
    }
  }

  // A disabled schedule may still be indexed, but only as a one-shot, and when that comes due no run starts.
  lemma DisabledEntryIsHarmless(trace: seq<World>, ops: seq<Op>, i: nat, id: Id, slot: nat)
    requires Execution(trace, ops) && i < |trace|
    requires id in trace[i].rows && !trace[i].rows[id].enabled && id in trace[i].entries
    ensures var w, e := trace[i], trace[i].entries[id];
            && e in w.live && w.live[e].OnceJob?
            && Step(w, Tick(e, slot)).runs == w.runs && Step(w, Tick(e, slot)).rows == w.rows
  {
    IndexAlwaysAgrees(trace, ops, i);
    assert Current(trace[i], id);
  }

  // A one-shot that the API fired and that is then made recurring: disabled, recurring, and indexed.
  lemma DisabledKeepsEntry(expr: string) returns (w: World)
    ensures var a := Step(EMPTY, Create("s", Once, Some(5), false, 0, 0));
            w == Step(Step(a, Fire("s", 1)), Update("s", Some(Every(expr)), None, None, 7))
    ensures "s" in w.rows && !w.rows["s"].enabled && w.rows["s"].cron == Every(expr) && "s" in w.entries
  {
    var a := Step(EMPTY, Create("s", Once, Some(5), false, 0, 0));
    var b := Step(a, Fire("s", 1));
    assert !b.rows["s"].enabled && "s" in b.entries;
    w := Step(b, Update("s", Some(Every(expr)), None, None, 7));
  }

  /* ---- one-shot schedules ---- */

  function RunsOf(runs: seq<Run>, id: Id): nat {
    if runs == [] then 0
    else RunsOf(runs[..|runs| - 1], id) + if runs[|runs| - 1].sched == id then 1 else 0
  }

  lemma {:induction false} RunsOfSame(a: seq<Run>, b: seq<Run>, id: Id)
    requires |a| == |b| && forall i :: 0 <= i < |a| ==> a[i].sched == b[i].sched
    ensures RunsOf(a, id) == RunsOf(b, id)
  {
    if a != [] { RunsOfSame(a[..|a| - 1], b[..|b| - 1], id); }
  }

  function Budget(w: World, id: Id): int {
    RunsOf(w.runs, id) + (if id in w.rows && w.rows[id].enabled then 1 else 0)
    - (if id in w.enables then 1 + w.enables[id] else 0)
  }

  // Rows and runs belong to schedules that were created.
  predicate Known(w: World) {
    (forall id <- w.rows :: id in w.enables) && (forall r <- w.runs :: r.sched in w.enables)
  }

  lemma {:induction false} NoRunsYet(runs: seq<Run>, id: Id)
    requires forall r <- runs :: r.sched != id
    ensures RunsOf(runs, id) == 0
  {
    if runs != [] {
      assert runs[|runs| - 1] in runs;
      NoRunsYet(runs[..|runs| - 1], id);
    }
  }

  lemma ReloadedSame(w: World, id: Id)
    ensures var v := Reloaded(w, id); v.rows == w.rows && v.runs == w.runs && v.enables == w.enables
  {
  }

  // Runs of the same schedules, over the same rows, or fewer.
  lemma SameKnown(w: World, v: World)
    requires Known(w) && (forall id <- w.enables :: id in v.enables)
    requires forall id <- v.rows :: id in w.rows
    requires |v.runs| == |w.runs| && forall i :: 0 <= i < |w.runs| ==> v.runs[i].sched == w.runs[i].sched
    ensures Known(v)
  {
    forall r | r in v.runs ensures r.sched in v.enables {
      var i :| 0 <= i < |v.runs| && v.runs[i] == r;
      assert w.runs[i] in w.runs;
    }
  }

  lemma FiredKnown(w: World, id: Id, slot: nat)
    requires Known(w)
    ensures Known(Fired(w, id, slot))
  {
  }

  lemma CreateKnown(w: World, id: Id, rec: Schedule)
    requires Known(w)
    ensures Known(Reloaded(Inserted(w, id, rec), id))
  {
    ReloadedSame(Inserted(w, id, rec), id);
  }

  lemma StepKeepsKnown(w: World, op: Op)
    requires Known(w) && Enabled(w, op)
    ensures Known(Step(w, op))
  {
    match op
    case Start(_) =>
      StartSame(w, op);
      SameKnown(w, Step(w, op));
    case Create(id, cron, runAt, skip, now, slot) =>
      if Creatable(cron, runAt, now) { CreateKnown(w, id, NewRow(cron, runAt, skip, slot)); }
    case Update(id, _, _, _, _) =>
      if id in w.rows { ReloadedSame(WithRow(w, id, Updated(w.rows[id], op)), id); }
    case Toggle(id, on) =>
      if id in w.rows { ReloadedSame(SwitchedOn(w, id), id); }
    case Delete(id) =>
    case Tick(entry, slot) =>
      var job := w.live[entry];
      FiredKnown(if job.OnceJob? then Removed(w, job.id) else w, job.id, slot);
    case Fire(id, slot) => FiredKnown(w, id, slot);
    case Progress(_, _) => SameKnown(w, Step(w, op));
    case UserMessage(_, _) => SameKnown(w, Step(w, op));
  }

  lemma {:induction false} RegisteredAllSame(w: World, order: seq<Id>)
    requires forall id <- order :: id in w.rows
    ensures var v := RegisteredAll(w, order); v.rows == w.rows && v.runs == w.runs && v.enables == w.enables
  {
    if order != [] { RegisteredAllSame(w, order[..|order| - 1]); }
  }

  lemma StartSame(w: World, op: Op)
    requires Enabled(w, op)
    ensures op.Start? ==>
              && Step(w, op).rows == w.rows && Step(w, op).enables == w.enables
              && |Step(w, op).runs| == |w.runs|
              && forall i :: 0 <= i < |w.runs| ==> Step(w, op).runs[i] == w.runs[i].(lost := true)
  {
    if op.Start? {
      RegisteredAllSame(Restarted(w), op.order);
    }
  }

  // A fire of a one-shot spends what it creates.
  lemma FiredBudget(w: World, id': Id, slot: nat, id: Id)
    requires id in w.rows ==> w.rows[id].cron.Once?
    ensures Budget(Fired(w, id', slot), id) == Budget(w, id)
  {
    if Fires(w, id') {
      var v := Fired(w, id', slot);
      assert v.runs[..|w.runs|] == w.runs;
      assert RunsOf(v.runs, id) == RunsOf(w.runs, id) + if id' == id then 1 else 0;
    }
  }

  lemma UpdateBudget(w: World, op: Op, id: Id)
    requires op.Update?
    ensures Budget(Step(w, op), id) == Budget(w, id)
  {
    if op.id in w.rows { ReloadedSame(WithRow(w, op.id, Updated(w.rows[op.id], op)), op.id); }
  }

  lemma ToggleBudget(w: World, op: Op, id: Id)
    requires op.Toggle? && Known(w)
    ensures Budget(Step(w, op), id) <= Budget(w, id)
  {
    if op.id in w.rows { ReloadedSame(SwitchedOn(w, op.id), op.id); }
  }

  lemma CreateBudget(w: World, op: Op, id: Id)
    requires op.Create? && Enabled(w, op) && Known(w) && Budget(w, id) <= 0
    ensures Budget(Step(w, op), id) <= 0
  {
    if op.id == id { NoRunsYet(w.runs, id); }
    if Creatable(op.cron, op.runAt, op.now) {
      ReloadedSame(Inserted(w, op.id, NewRow(op.cron, op.runAt, op.skip, op.slot)), op.id);
    }
  }

  // What each step does to the budget of a schedule that is not recurring at the time.
  lemma StepKeepsBudget(w: World, op: Op, id: Id)
    requires Known(w) && Enabled(w, op) && Budget(w, id) <= 0
    requires id in w.rows ==> w.rows[id].cron.Once?
    ensures Budget(Step(w, op), id) <= 0
  {
    match op
    case Start(_) =>
      StartSame(w, op);
      RunsOfSame(w.runs, Step(w, op).runs, id);
    case Create(_, _, _, _, _, _) => CreateBudget(w, op, id);
    case Update(_, _, _, _, _) => UpdateBudget(w, op, id);
    case Toggle(_, _) => ToggleBudget(w, op, id);
    case Delete(_) =>
    case Progress(_, _) => RunsOfSame(w.runs, Step(w, op).runs, id);
    case UserMessage(_, _) => RunsOfSame(w.runs, Step(w, op).runs, id);
    case Tick(entry, slot) =>
      var job := w.live[entry];
      FiredBudget(if job.OnceJob? then Removed(w, job.id) else w, job.id, slot, id);
    case Fire(id', slot) => FiredBudget(w, id', slot, id);
  }

  // Main result: a schedule that stays @once creates at most one run more than it was toggled on, across
  // ticks, API fires, catch-ups and restarts.
  lemma {:induction false} OneShotFires(trace: seq<World>, ops: seq<Op>, i: nat, id: Id)
    requires Execution(trace, ops) && i < |trace|
    requires forall j :: 0 <= j < i ==> id in trace[j].rows ==> trace[j].rows[id].cron.Once?
    ensures Known(trace[i]) && Budget(trace[i], id) <= 0
    ensures RunsOf(trace[i].runs, id) <= if id in trace[i].enables then 1 + trace[i].enables[id] else 0
  {
    if i > 0 {
      OneShotFires(trace, ops, i - 1, id);
      StepKeepsKnown(trace[i - 1], ops[i - 1]);
      StepKeepsBudget(trace[i - 1], ops[i - 1], id);
    }
  }

  /* ---- the skip guard ---- */

  predicate InProgress(p: Phase) { p.Provisioning? || p.Streaming? || p.Failing? }

  // A run without an outcome has not finished; an untouched one is counted exactly while it is between
  // SetProvisioning and storing its error or its outcome.
  predicate RunOk(r: Run) {
    && (r.outcome == "" <==> !r.phase.Finished?)
    && r.outcome in {"", "completed", "timeout", "failed"}
    && (!r.touched && r.outcome == "" ==> (IsActive(r, r.sched) <==> InProgress(r.phase)))
  }

  predicate RunsOk(w: World) { forall r <- w.runs :: RunOk(r) }

  // One step on one run: its schedule stays, and so does an outcome once stored; a lost run stays lost where
  // it is; and what a user touched stays touched.
  predicate RunFollows(before: Run, after: Run) {
    && after.sched == before.sched && (before.outcome != "" ==> after.outcome == before.outcome)
    && (before.lost ==> after.lost && after.phase == before.phase)
    && (before.touched ==> after.touched)
  }

  lemma StepKeepsRuns(w: World, op: Op)
    requires RunsOk(w) && Enabled(w, op)
    ensures RunsOk(Step(w, op))
    ensures |w.runs| <= |Step(w, op).runs|
    ensures forall i :: 0 <= i < |w.runs| ==> RunFollows(w.runs[i], Step(w, op).runs[i])
  {
    StartSame(w, op);
    var v := Step(w, op);
    forall i | 0 <= i < |v.runs| ensures RunOk(v.runs[i]) && (i < |w.runs| ==> RunFollows(w.runs[i], v.runs[i])) {
      if i < |w.runs| { assert w.runs[i] in w.runs; }
    }
  }

  lemma {:induction false} RunsAlwaysOk(trace: seq<World>, ops: seq<Op>, i: nat)
    requires Execution(trace, ops) && i < |trace|
    ensures RunsOk(trace[i])
  {
    if i > 0 {
      RunsAlwaysOk(trace, ops, i - 1);
      StepKeepsRuns(trace[i - 1], ops[i - 1]);
    }
  }

  // Main result: whatever users do to its task, a run the skip guard counts is one whose goroutine has
  // not finished, and a finished run holds one terminal outcome; without user messages the guard counts
  // exactly the runs in progress.
  lemma GuardCountsUnfinished(trace: seq<World>, ops: seq<Op>, i: nat, r: nat)
    requires Execution(trace, ops) && i < |trace| && r < |trace[i].runs|
    ensures var run := trace[i].runs[r];
            && (IsActive(run, run.sched) ==> !run.phase.Finished?)
            && (run.phase.Finished? <==> run.outcome in {"completed", "timeout", "failed"})
            && (!run.touched && !run.phase.Finished? ==> (IsActive(run, run.sched) <==> InProgress(run.phase)))
  {
    RunsAlwaysOk(trace, ops, i);
    assert RunOk(trace[i].runs[r]);
  }

  // A run keeps its schedule from firing: its goroutine has not finished, and it stands between
  // SetProvisioning and storing its error or outcome; or else a user's message has set its state since.
  predicate Blocks(r: Run) {
    !r.phase.Finished? && if r.touched then !r.state.New? && !r.state.Error? else InProgress(r.phase)
  }

  // Main result: an enabled skipping schedule fires exactly when no run of it blocks. So it does not fire
  // beside a run in progress, and it does beside one that was just launched, or that has stored its error
  // and not yet its outcome.
  lemma FiresExactly(trace: seq<World>, ops: seq<Op>, i: nat, id: Id)
    requires Execution(trace, ops) && i < |trace|
    requires id in trace[i].rows && trace[i].rows[id].enabled && trace[i].rows[id].skip
    ensures Fires(trace[i], id) <==> forall r <- trace[i].runs :: r.sched == id ==> !Blocks(r)
    ensures (forall r <- trace[i].runs :: r.sched == id ==> !r.touched) ==>
              (Fires(trace[i], id) <==>
               forall r <- trace[i].runs :: r.sched == id && !r.phase.Finished? ==>
                 r.phase.Launched? || r.phase.Failed?)
  {
    RunsAlwaysOk(trace, ops, i);
    var w := trace[i];
    forall r | r in w.runs && r.sched == id ensures IsActive(r, id) <==> Blocks(r) { assert RunOk(r); }
    if r :| r in w.runs && IsActive(r, id) { assert HasActive(w.runs, id) && Blocks(r); }
  }

  // A run whose process died in progress blocks its skipping schedule for good, unless a user messages it.
  lemma {:induction false} LostRunBlocks(trace: seq<World>, ops: seq<Op>, i: nat, j: nat, r: nat)
    requires Execution(trace, ops) && i <= j < |trace| && r < |trace[i].runs|
    requires trace[i].runs[r].lost && InProgress(trace[i].runs[r].phase)
    ensures r < |trace[j].runs| && trace[j].runs[r].sched == trace[i].runs[r].sched
    ensures trace[j].runs[r].lost && trace[j].runs[r].phase == trace[i].runs[r].phase
    ensures var id := trace[i].runs[r].sched;
            !trace[j].runs[r].touched && id in trace[j].rows && trace[j].rows[id].skip ==> !Fires(trace[j], id)
    decreases j - i
  {
    RunsAlwaysOk(trace, ops, j);
    if i < j {
      LostRunBlocks(trace, ops, i, j - 1, r);
      RunsAlwaysOk(trace, ops, j - 1);
      assert trace[j - 1 + 1] == Step(trace[j - 1], ops[j - 1]);
      StepKeepsRuns(trace[j - 1], ops[j - 1]);
      assert RunFollows(trace[j - 1].runs[r], trace[j].runs[r]);
    }
    assert RunOk(trace[j].runs[r]);
    if !trace[j].runs[r].touched { assert IsActive(trace[j].runs[r], trace[i].runs[r].sched); }
  }

  // A stored outcome never changes.
  lemma {:induction false} OutcomeStoredOnce(trace: seq<World>, ops: seq<Op>, i: nat, j: nat, r: nat)
    requires Execution(trace, ops) && i <= j < |trace| && r < |trace[i].runs| && trace[i].runs[r].outcome != ""
    ensures r < |trace[j].runs| && trace[j].runs[r].outcome == trace[i].runs[r].outcome
    decreases j - i
  {
    if i < j {
      OutcomeStoredOnce(trace, ops, i, j - 1, r);
      RunsAlwaysOk(trace, ops, j - 1);
      assert trace[j - 1 + 1] == Step(trace[j - 1], ops[j - 1]);
      StepKeepsRuns(trace[j - 1], ops[j - 1]);
      assert RunFollows(trace[j - 1].runs[r], trace[j].runs[r]);
    }
  }

  // The guard does not keep runs apart: a run that was just launched is not counted, so two fires in a row
  // of a skipping schedule end with two runs in progress.
  lemma TwoFiresBeforeProvisioning() returns (w: World)
    ensures var a := Step(EMPTY, Create("s", Every("* * * * *"), None, true, 0, 1));
            var b := Step(Step(a, Fire("s", 2)), Fire("s", 3));
            && |b.runs| == 2
            && Enabled(b, Progress(0, RunEvent.SetProvisioning))
            && var c := Step(b, Progress(0, RunEvent.SetProvisioning));
               Enabled(c, Progress(1, RunEvent.SetProvisioning)) && w == Step(c, Progress(1, RunEvent.SetProvisioning))
    ensures w.rows["s"].skip && |w.runs| == 2 && IsActive(w.runs[0], "s") && IsActive(w.runs[1], "s")
  {
    var a := Step(EMPTY, Create("s", Every("* * * * *"), None, true, 0, 1));
    var b1 := Step(a, Fire("s", 2));
    assert b1.runs == [Run("s", New, "", Launched, false, false)];
    assert !HasActive(b1.runs, "s");
    var b := Step(b1, Fire("s", 3));
    var c := Step(b, Progress(0, RunEvent.SetProvisioning));
    w := Step(c, Progress(1, RunEvent.SetProvisioning));
  }
}
