/** The scheduler object over the rows of the database: each method is proved to take the step that
    Schedules gives for it. */
module Scheduler {
  import opened Wrappers
  import opened Sequences
  import opened TaskTypes
  import opened Schedules

  // Whether a fire was missed while no process ran: the persisted time has passed.
  predicate Missed(rec: Schedule, now: nat) {
    var due := if rec.cron.Once? then rec.runAt else rec.nextRunAt;
    due.Some? && due.value < now
  }

  // A one-shot is missed when its run time has passed, a recurring schedule when its next time has.
  lemma MissedIs(rec: Schedule, now: nat)
    ensures rec.cron.Once? ==> (Missed(rec, now) <==> exists t: nat :: t < now && rec.runAt == Some(t))
    ensures rec.cron.Every? ==> (Missed(rec, now) <==> exists t: nat :: t < now && rec.nextRunAt == Some(t))
  {
  }

  // onceSpec.Next: when a one-shot entry fires, asked at a time after.
  function OnceNext(at: nat, after: nat): Option<nat> {
    if after < at then Some(at) else None
  }

  // Start reads the clock and then starts the cron runner, which reads it again. A one-shot is fired by
  // the catch-up or by the runner, and never by both; it is fired by neither, and waits for the next
  // restart, exactly when its time lies between the two readings.
  lemma OneShotPickedUpAtStart(rec: Schedule, now: nat, cronNow: nat)
    requires rec.cron.Once? && rec.runAt.Some? && now <= cronNow
    ensures var caughtUp, planned := Missed(rec, now), OnceNext(rec.runAt.value, cronNow).Some?;
            && !(caughtUp && planned)
            && (!caughtUp && !planned <==> now <= rec.runAt.value <= cronNow)
  {
  }

  // The missed ones among some schedules, in their order.
  function AllMissed(rows: map<Id, Schedule>, order: seq<Id>, now: nat): seq<Id> {
    Filter(order, (id: Id) => id in rows && Missed(rows[id], now))
  }

  class Scheduler {
    // The database.
    var rows: map<Id, Schedule>
    var runs: seq<Run>
    // The process.
    var entries: map<Id, nat>
    var live: map<nat, Job>
    var nextEntry: nat
    // How often each schedule was switched on.
    ghost var enables: map<Id, nat>

    ghost function Value(): World
      reads this
    {
      World(rows, entries, live, nextEntry, runs, enables)
    }

    // A new process over an existing database.
    constructor (rows: map<Id, Schedule>, runs: seq<Run>, ghost enables: map<Id, nat>)
      ensures Value() == World(rows, map[], map[], 0, runs, enables)
    {
      this.rows, this.runs, this.enables := rows, runs, enables;
      entries, live, nextEntry := map[], map[], 0;
    }

    method Remove(id: Id)
      modifies this`entries, this`live
      ensures Value() == Removed(old(Value()), id)
    {
      if id in entries {
        live := live - {entries[id]};
        entries := entries - {id};
      }
    }

    method AddJob(job: Job) returns (entry: nat)
      modifies this`live, this`nextEntry
      ensures entry == old(nextEntry) && nextEntry == entry + 1 && live == old(live)[entry := job]
    {
      entry := nextEntry;
      live, nextEntry := live[entry := job], nextEntry + 1;
    }

    method RegisterOnce(id: Id, rec: Schedule)
      requires rec.cron.Once?
      modifies this`entries, this`live, this`nextEntry
      ensures Value() == Registered(old(Value()), id, rec)
    {
      if rec.runAt.None? { return; }
      var entry := AddJob(OnceJob(id, rec.runAt.value));
      entries := entries[id := entry];
    }

    method Register(id: Id, rec: Schedule)
      modifies this`entries, this`live, this`nextEntry
      ensures Value() == Registered(old(Value()), id, rec)
    {
      if rec.cron.Once? {
        RegisterOnce(id, rec);
        return;
      }
      var entry := AddJob(CronJob(id, rec.cron.expr));
      entries := entries[id := entry];
    }

    method Reload(id: Id)
      modifies this`entries, this`live, this`nextEntry
      ensures Value() == Reloaded(old(Value()), id)
    {
      if id !in rows || !rows[id].enabled { return; }
      Remove(id);
      Register(id, rows[id]);
    }

    // order: the enabled rows as the query returns them. The missed ones are fired once each, in
    // goroutines of their own.
    method Start(order: seq<Id>, now: nat) returns (caughtUp: seq<Id>)
      requires forall id <- order :: id in rows
      modifies this`entries, this`live, this`nextEntry
      ensures Value() == RegisteredAll(old(Value()), order)
      ensures caughtUp == AllMissed(rows, order, now)
    {
      caughtUp := [];
      for i := 0 to |order|
        invariant rows == old(rows)
        invariant Value() == RegisteredAll(old(Value()), order[..i])
        invariant caughtUp == AllMissed(rows, order[..i], now)
      {
        assert order[..i + 1][..i] == order[..i] && order[..i + 1] == order[..i] + [order[i]];
        Register(order[i], rows[order[i]]);
        if Missed(rows[order[i]], now) { caughtUp := caughtUp + [order[i]]; }
      }
      assert order[..|order|] == order;
    }

    // The database section of RunFire; created tells whether a run was launched.
    method RunFire(id: Id, slot: nat) returns (created: bool)
      modifies this`rows, this`runs
      ensures Value() == Fired(old(Value()), id, slot)
      ensures created == Fires(old(Value()), id)
    {
      if id !in rows || !rows[id].enabled { return false; }
      var rec := rows[id];
      if rec.skip && HasActive(runs, id) { return false; }
      runs := runs + [Run(id, New, "", Launched, false, false)];
      if rec.cron.Once? {
        rec := rec.(enabled := false, nextRunAt := None);
      } else {
        rec := rec.(nextRunAt := Some(slot));
      }
      rows := rows[id := rec];
      created := true;
    }

    // A cron entry comes due; a one-shot job first takes itself out of the index.
    method RunJob(entry: nat, slot: nat) returns (created: bool)
      requires entry in live
      modifies this`entries, this`live, this`rows, this`runs
      ensures Value() == Step(old(Value()), Tick(entry, slot))
    {
      var job := live[entry];
      if job.OnceJob? { Remove(job.id); }
      created := RunFire(job.id, slot);
    }

    /* ---- the service ---- */

    method Create(id: Id, cron: Cron, runAt: Option<nat>, skip: bool, now: nat, slot: nat) returns (ok: bool)
      requires id !in enables
      modifies this
      ensures Value() == Step(old(Value()), Op.Create(id, cron, runAt, skip, now, slot))
      ensures ok == Creatable(cron, runAt, now)
    {
      if cron.Once? && runAt.None? { return false; }
      if cron.Once? && runAt.Some? && runAt.value < now { return false; }
      var nextRun := if cron.Once? then runAt else Some(slot);
      rows := rows[id := Schedule(cron, runAt, nextRun, true, skip)];
      enables := enables[id := 0];
      Reload(id);
      ok := true;
    }

    method Update(id: Id, cron: Option<Cron>, runAt: Option<nat>, skip: Option<bool>, slot: nat) returns (found: bool)
      modifies this`rows, this`entries, this`live, this`nextEntry
      ensures Value() == Step(old(Value()), Op.Update(id, cron, runAt, skip, slot))
      ensures found == (id in old(rows))
    {
      if id !in rows { return false; }
      var rec := rows[id];
      if cron.Some? {
        rec := rec.(cron := cron.value);
        if !cron.value.Once? { rec := rec.(nextRunAt := Some(slot)); }
      }
      if runAt.Some? {
        rec := rec.(runAt := runAt);
        if rec.cron.Once? { rec := rec.(nextRunAt := runAt); }
      }
      if skip.Some? { rec := rec.(skip := skip.value); }
      rows := rows[id := rec];
      Reload(id);
      found := true;
    }

    method Delete(id: Id) returns (found: bool)
      modifies this`rows, this`entries, this`live
      ensures Value() == Step(old(Value()), Op.Delete(id))
      ensures found == (id in old(rows))
    {
      if id !in rows { return false; }
      Remove(id);
      rows := rows - {id};
      found := true;
    }

    method Toggle(id: Id, on: bool) returns (found: bool)
      modifies this
      ensures Value() == Step(old(Value()), Op.Toggle(id, on))
      ensures found == (id in old(rows))
    {
      if id !in rows { return false; }
      rows := rows[id := rows[id].(enabled := on)];
      if on {
        enables := enables[id := (if id in enables then enables[id] else 0) + 1];
        Reload(id);
      } else {
        Remove(id);
      }
      found := true;
    }
  }
}
