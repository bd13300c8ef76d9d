/** One process's scheduler: the reconciliation pass in place, activation with recovery, and the leadership round. */
module SchedulerNode {
  import opened Wrappers
  import opened TriggerReconciliation

  /** Where a `SQLAlchemyError` strikes during a pass. */
  datatype PassFault = NoFault | QueryFails | CommitFails

  datatype PassResult = Counted(count: nat) | DatabaseError | Raised

  /**
   * The errors of one leadership round.  `register` is one between the registrations of the
   * maintenance jobs, after those it names; `release` is one while unlocking.
   */
  datatype Faults = Faults(start: bool, register: Option<set<string>>, pass: PassFault, release: bool)

  datatype RoundResult = Leading | Following | Crashed

  /** The maintenance jobs that a series of registrations has reached when it ends. */
  function MaintenanceUpTo(maintenance: Jobs, done: Option<set<string>>): Jobs {
    match done
    case None => maintenance
    case Some(ids) => map id | id in maintenance && id in ids :: maintenance[id]
  }

  class Node {
    const lib: Library
    const maintenance: Jobs
    var leading: bool
    var running: bool
    var paused: bool
    var jobs: Jobs
    var triggers: seq<Trigger>

    constructor (lib: Library, maintenance: Jobs, jobs: Jobs, triggers: seq<Trigger>)
      ensures this.lib == lib && this.maintenance == maintenance && this.jobs == jobs && this.triggers == triggers
      ensures !leading && !running && !paused
    {
      this.lib, this.maintenance, this.jobs, this.triggers := lib, maintenance, jobs, triggers;
      leading, running, paused := false, false, false;
    }

    /** Whether due jobs are being started. */
    predicate Fires()
      reads this
    {
      running && !paused
    }

    method RemoveStale(now: int)
      modifies this`jobs
      ensures jobs == old(jobs) - Stale(old(jobs), triggers, now)
    {
      var stale := Stale(jobs, triggers, now);
      ghost var was := stale;
      assert jobs == old(jobs) - (was - stale);
      while stale != {}
        invariant stale <= was && jobs == old(jobs) - (was - stale)
        decreases stale
      {
        var id :| id in stale;
        jobs := jobs - {id};
        stale := stale - {id};
        assert jobs == old(jobs) - (was - stale);
      }
      assert was - {} == was;
    }

    /** Registers the schedule of one trigger; `None` stands for the exception. */
    method AddTriggerJob(t: Trigger) returns (next: Option<Option<int>>)
      modifies this`jobs
      ensures next.None? <==> lib.add(t.schedule).Rejected?
      ensures jobs == match lib.add(t.schedule)
        case Registered(at) => old(jobs)[JobId(t) := NewJob(lib, t, at)]
        case _ => old(jobs)
      ensures next.Some? ==>
        next.value == match lib.add(t.schedule) case Registered(at) => at case _ => None
    {
      match lib.add(t.schedule) {
        case Rejected => next := None;
        case NotRegistered => next := Some(None);
        case Registered(at) =>
          jobs := jobs[JobId(t) := NewJob(lib, t, at)];
          next := Some(at);
      }
    }

    /**
     * One pass.  Only a committed pass changes triggers; the job table is changed as the
     * pass goes along.
     */
    method Reconcile(now: int, fault: PassFault) returns (r: PassResult)
      requires DistinctIds(triggers)
      modifies this`jobs, this`triggers
      ensures !running ==> r == Counted(0) && jobs == old(jobs) && triggers == old(triggers)
      ensures running ==>
        var pass := Pass(lib, old(jobs), old(triggers), now);
        match r
        case Counted(n) =>
          fault.NoFault? && pass == Some((jobs, triggers)) && n == |SchedulableIds(old(triggers), now)|
        case DatabaseError =>
          && !fault.NoFault? && triggers == old(triggers)
          && (fault.QueryFails? ==> jobs == old(jobs))
          && (fault.CommitFails? ==> pass.Some? && jobs == pass.value.0)
        case Raised => pass.None? && triggers == old(triggers)
      ensures running && fault.QueryFails? ==> r.DatabaseError?
    {
      hide Pass, DistinctIds, Stale;
      if !running { return Counted(0); }
      if fault.QueryFails? { return DatabaseError; }
      RemoveStale(now);
      ghost var pruned := jobs;
      var us: seq<Trigger> := [];
      var i := 0;
      while i < |triggers|
        invariant 0 <= i <= |triggers| && triggers == old(triggers)
        invariant VisitAll(lib, pruned, triggers[..i], now) == Some((jobs, us))
      {
        var t := triggers[i];
        assert triggers[..i + 1][..i] == triggers[..i];
        if IsSchedulable(t, now) {
          if UpToDate(lib, jobs, t) {
            us := us + [t.(nextRunAt := jobs[JobId(t)].nextRunAt)];
          } else {
            var next := AddTriggerJob(t);
            if next.None? {
              FailedVisit(lib, pruned, triggers, i + 1, now);
              PassIs(lib, old(jobs), triggers, now);
              return Raised;
            }
            us := us + [t.(nextRunAt := next.value)];
          }
        } else {
          us := us + [t.(status := if t.status == "active" then "completed" else t.status, nextRunAt := None)];
        }
        i := i + 1;
      }
      assert triggers[..i] == triggers;
      PassIs(lib, old(jobs), triggers, now);
      if fault.CommitFails? { return DatabaseError; }
      r := Counted(|SchedulableIds(triggers, now)|);
      triggers := us;
    }

    method StopScheduler()
      modifies this`running, this`paused
      ensures !running && !paused
    {
      running, paused := false, false;
    }

    /** Registers the maintenance jobs, each in place of one with its id; `done` cuts the series short. */
    method RegisterMaintenance(done: Option<set<string>>) returns (ok: bool)
      modifies this`jobs
      ensures ok == done.None?
      ensures jobs == old(jobs) + MaintenanceUpTo(maintenance, done)
    {
      jobs := jobs + MaintenanceUpTo(maintenance, done);
      ok := done.None?;
    }

    /**
     * Starts a stopped scheduler paused, rebuilds every job, and only then lets jobs run.  One
     * that runs already keeps running, or stays paused, while its jobs are rebuilt.
     */
    method Activate(now: int, faults: Faults) returns (r: PassResult)
      requires DistinctIds(triggers)
      modifies this
      ensures leading == old(leading)
      ensures old(running) ==> running && paused == old(paused)
      ensures r.Counted? ==>
        && running && (!old(running) ==> Fires())
        && Pass(lib, old(jobs) + maintenance, old(triggers), now) == Some((jobs, triggers))
      ensures !r.Counted? ==> (Fires() ==> old(Fires())) && triggers == old(triggers)
      ensures !old(running) && faults.start ==> r.DatabaseError? && jobs == old(jobs)
      ensures (old(running) || !faults.start) && faults.register.Some? ==>
        r.DatabaseError? && jobs == old(jobs) + MaintenanceUpTo(maintenance, faults.register)
      ensures r.Raised? ==> Pass(lib, old(jobs) + maintenance, old(triggers), now).None?
      ensures r.DatabaseError? ==>
        (!old(running) && faults.start) || faults.register.Some? || !faults.pass.NoFault?
      ensures (!old(running) && faults.start) || faults.register.Some? || faults.pass.QueryFails? ==> r.DatabaseError?
      ensures r.Counted? <==>
        && (old(running) || !faults.start) && faults.register.None? && faults.pass.NoFault?
        && Pass(lib, old(jobs) + maintenance, old(triggers), now).Some?
    {
      hide Pass, DistinctIds;
      var starting := !running;
      if starting {
        if faults.start { return DatabaseError; }
        running, paused := true, true;
      }
      var registered := RegisterMaintenance(faults.register);
      if !registered { return DatabaseError; }
      r := Reconcile(now, faults.pass);
      if !r.Counted? { return; }
      if starting { paused := false; }
    }

    /** Activation, or a full retreat when the database fails on the way. */
    method ActivateWithRecovery(now: int, faults: Faults) returns (r: RoundResult)
      requires DistinctIds(triggers)
      modifies this
      ensures r.Leading? ==>
        && leading == old(leading) && running && (old(running) ==> paused == old(paused)) && (!old(running) ==> Fires())
        && Pass(lib, old(jobs) + maintenance, old(triggers), now) == Some((jobs, triggers))
      ensures r.Following? ==> !leading && !running && triggers == old(triggers)
      ensures r.Crashed? ==>
        && (Fires() ==> old(Fires())) && triggers == old(triggers)
        && (Pass(lib, old(jobs) + maintenance, old(triggers), now).None? || (faults.release && !leading && !running))
      ensures r.Leading? <==>
        && (old(running) || !faults.start) && faults.register.None? && faults.pass.NoFault?
        && Pass(lib, old(jobs) + maintenance, old(triggers), now).Some?
    {
      hide Pass, DistinctIds;
      var activated := Activate(now, faults);
      match activated {
        case Counted(_) => r := Leading;
        case Raised => r := Crashed;
        case DatabaseError =>
          StopScheduler();
          leading := false;
          r := if faults.release then Crashed else Following;
      }
    }

    /**
     * One leadership round.  `held` is what the health query would find and `won` what an
     * attempt to take the lock would give.  A round that reports leadership leaves a leader
     * whose jobs run; one that does not leaves neither; and one that ends in an exception
     * starts no job that was not being started before.
     */
    method Maintain(now: int, held: bool, won: bool, faults: Faults) returns (r: RoundResult)
      requires DistinctIds(triggers) && (running ==> !paused)
      modifies this
      ensures r.Leading? ==> leading && Fires()
      ensures r.Following? ==> !leading && !running
      ensures r.Crashed? && Fires() ==> old(Fires()) && old(leading) && held
      ensures r.Leading? && !(old(leading) && held && old(running)) ==>
        Pass(lib, old(jobs) + maintenance, old(triggers), now) == Some((jobs, triggers))
      ensures r.Leading? && old(leading) && held && old(running) && faults.pass.NoFault? ==>
        Pass(lib, old(jobs), old(triggers), now) == Some((jobs, triggers))
      ensures !r.Leading? ==> triggers == old(triggers)
      ensures !(old(leading) && held) && !won ==> r.Following? && jobs == old(jobs)
      ensures old(leading) && held && old(running) ==>
        && leading && running && paused == old(paused) && !r.Following?
        && (r.Crashed? ==> Pass(lib, old(jobs), old(triggers), now).None?)
        && (faults.pass.NoFault? ==> (r.Leading? <==> Pass(lib, old(jobs), old(triggers), now).Some?))
      ensures !(old(leading) && held && old(running)) && (won || (old(leading) && held)) ==>
        (r.Leading? <==>
          && !faults.start && faults.register.None? && faults.pass.NoFault?
          && Pass(lib, old(jobs) + maintenance, old(triggers), now).Some?)
    {
      hide Pass, DistinctIds;
      var healthy := leading && held;
      if healthy && running {
        var passed := Reconcile(now, faults.pass);
        return if passed.Raised? then Crashed else Leading;
      }
      if !healthy {
        leading := false;
        StopScheduler();
        if !won { return Following; }
        leading := true;
      }
      r := ActivateWithRecovery(now, faults);
    }
  }

  lemma PassIs(lib: Library, jobs: Jobs, ts: seq<Trigger>, now: int)
    ensures Pass(lib, jobs, ts, now) == VisitAll(lib, jobs - Stale(jobs, ts, now), ts, now)
  {
  }

  /** A visit that raises makes the whole pass raise. */
  lemma {:induction false} FailedVisit(lib: Library, jobs: Jobs, ts: seq<Trigger>, n: nat, now: int)
    requires n <= |ts| && VisitAll(lib, jobs, ts[..n], now).None?
    ensures VisitAll(lib, jobs, ts, now).None?
    decreases |ts| - n
  {
    if n == |ts| {
      assert ts[..n] == ts;
    } else {
      assert ts[..n + 1][..n] == ts[..n];
      FailedVisit(lib, jobs, ts, n + 1, now);
    }
  }
}
