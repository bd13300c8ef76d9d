/** Making the scheduler's job table match the shared trigger definitions, and the leadership round around it. */
module TriggerReconciliation {
  import opened Wrappers

  /** A schedule: the trigger's type, its persisted configuration and its time zone. */
  datatype Schedule = Schedule(kind: string, config: string, timezone: string)

  datatype Trigger = Trigger(
    id: string, schedule: Schedule, status: string, runCount: int, maxRuns: Option<int>,
    endAt: Option<int>, nextRunAt: Option<int>)

  datatype Job = Job(args: seq<string>, nextRunAt: Option<int>)

  type Jobs = map<string, Job>

  /**
   * What registering a schedule does: a job with its next run; nothing at all (an unknown type, or
   * a one-time schedule without a date); or an exception (a malformed cron expression or zone).
   */
  datatype AddOutcome = Registered(nextRunAt: Option<int>) | NotRegistered | Rejected

  /** Functions of a schedule that this model leaves abstract. */
  datatype Library = Library(fingerprint: Schedule -> string, add: Schedule -> AddOutcome)

  const PREFIX := "trigger_"

  function JobId(t: Trigger): string { PREFIX + t.id }

  predicate IsTriggerJob(id: string) { |id| >= |PREFIX| && id[..|PREFIX|] == PREFIX }

  predicate IsSchedulable(t: Trigger, now: int) {
    && t.status == "active"
    && !(t.maxRuns.Some? && t.runCount >= t.maxRuns.value)
    && (t.endAt.None? || t.endAt.value > now)
  }

  /** The fingerprint kept in a trigger's own job. */
  function StoredFingerprint(jobs: Jobs, t: Trigger): Option<string> {
    if JobId(t) !in jobs then None
    else
      var args := jobs[JobId(t)].args;
      if |args| == 2 && args[0] == t.id then Some(args[1]) else None
  }

  predicate UpToDate(lib: Library, jobs: Jobs, t: Trigger) {
    StoredFingerprint(jobs, t) == Some(lib.fingerprint(t.schedule))
  }

  function NewJob(lib: Library, t: Trigger, next: Option<int>): Job {
    Job([t.id, lib.fingerprint(t.schedule)], next)
  }

  // ---- One pass as a function ----------------------------------------------------

  function SchedulableIds(ts: seq<Trigger>, now: int): set<string> {
    set i | 0 <= i < |ts| && IsSchedulable(ts[i], now) :: JobId(ts[i])
  }

  function Stale(jobs: Jobs, ts: seq<Trigger>, now: int): set<string> {
    set id | id in jobs && IsTriggerJob(id) && id !in SchedulableIds(ts, now)
  }

  /** Jobs and trigger after one trigger has been visited; `None` for an exception. */
  function Visit(lib: Library, jobs: Jobs, t: Trigger, now: int): Option<(Jobs, Trigger)> {
    if !IsSchedulable(t, now) then
      Some((jobs, t.(status := if t.status == "active" then "completed" else t.status, nextRunAt := None)))
    else if UpToDate(lib, jobs, t) then
      Some((jobs, t.(nextRunAt := jobs[JobId(t)].nextRunAt)))
    else
      match lib.add(t.schedule)
      case Rejected => None
      case NotRegistered => Some((jobs, t.(nextRunAt := None)))
      case Registered(next) => Some((jobs[JobId(t) := NewJob(lib, t, next)], t.(nextRunAt := next)))
  }

  function VisitAll(lib: Library, jobs: Jobs, ts: seq<Trigger>, now: int): Option<(Jobs, seq<Trigger>)> {
    if ts == [] then Some((jobs, []))
    else
      var n := |ts| - 1;
      match VisitAll(lib, jobs, ts[..n], now)
      case None => None
      case Some((mid, before)) =>
        match Visit(lib, mid, ts[n], now)
        case None => None
        case Some((after, t)) => Some((after, before + [t]))
  }

  function Pass(lib: Library, jobs: Jobs, ts: seq<Trigger>, now: int): Option<(Jobs, seq<Trigger>)> {
    VisitAll(lib, jobs - Stale(jobs, ts, now), ts, now)
  }

  predicate DistinctIds(ts: seq<Trigger>) {
    forall i, j | 0 <= i < j < |ts| :: ts[i].id != ts[j].id
  }

  // ---- What a pass achieves --------------------------------------------------------

  lemma JobIdIsTriggerJob(t: Trigger)
    ensures IsTriggerJob(JobId(t))
  {
  }

  lemma JobIdsDiffer(t: Trigger, u: Trigger)
    requires t.id != u.id
    ensures JobId(t) != JobId(u)
  {
    assert JobId(t)[|PREFIX|..] == t.id && JobId(u)[|PREFIX|..] == u.id;
  }

  /** What a pass leaves under the id of trigger `t`, `jobs` being the table the visits started from. */
  ghost predicate Settled(lib: Library, jobs: Jobs, after: Jobs, t: Trigger, u: Trigger, now: int) {
    var id := JobId(t);
    if IsSchedulable(t, now) && !UpToDate(lib, jobs, t) && lib.add(t.schedule).Registered? then
      && id in after && after[id] == NewJob(lib, t, lib.add(t.schedule).nextRunAt)
      && u == t.(nextRunAt := after[id].nextRunAt)
    else
      && (id in after <==> id in jobs) && (id in jobs ==> after[id] == jobs[id])
      && if !IsSchedulable(t, now) then
           u == t.(status := if t.status == "active" then "completed" else t.status, nextRunAt := None)
         else if UpToDate(lib, jobs, t) then u == t.(nextRunAt := jobs[id].nextRunAt)
         else !lib.add(t.schedule).Rejected? && u == t.(nextRunAt := None)
  }

  ghost predicate Blocks(lib: Library, jobs: Jobs, t: Trigger, now: int) {
    IsSchedulable(t, now) && !UpToDate(lib, jobs, t) && lib.add(t.schedule).Rejected?
  }

  predicate SameAt(jobs: Jobs, after: Jobs, id: string) {
    (id in after <==> id in jobs) && (id in jobs ==> after[id] == jobs[id])
  }

  lemma VisitSettles(lib: Library, jobs: Jobs, t: Trigger, now: int)
    ensures Visit(lib, jobs, t, now).None? <==> Blocks(lib, jobs, t, now)
    ensures Visit(lib, jobs, t, now).Some? ==>
      var (after, u) := Visit(lib, jobs, t, now).value;
      && Settled(lib, jobs, after, t, u, now)
      && forall id | id != JobId(t) :: SameAt(jobs, after, id)
  {
  }

  /** Whether a trigger is settled depends only on what its own id holds before and after. */
  lemma SettledFrame(lib: Library, jobs: Jobs, mid: Jobs, last: Jobs, after: Jobs, t: Trigger, u: Trigger, now: int)
    requires Settled(lib, mid, last, t, u, now) && SameAt(jobs, mid, JobId(t)) && SameAt(last, after, JobId(t))
    ensures Settled(lib, jobs, after, t, u, now)
  {
  }

  lemma BlocksFrame(lib: Library, jobs: Jobs, mid: Jobs, t: Trigger, now: int)
    requires SameAt(jobs, mid, JobId(t))
    ensures Blocks(lib, jobs, t, now) <==> Blocks(lib, mid, t, now)
  {
  }

  function JobIds(ts: seq<Trigger>): set<string> { set t | t in ts :: JobId(t) }

  ghost predicate AllSettled(lib: Library, jobs: Jobs, after: Jobs, ts: seq<Trigger>, us: seq<Trigger>, now: int) {
    && |us| == |ts| && (forall i | 0 <= i < |ts| :: Settled(lib, jobs, after, ts[i], us[i], now))
    && (forall id | id !in JobIds(ts) :: SameAt(jobs, after, id))
  }

  lemma IdsBefore(ts: seq<Trigger>)
    requires DistinctIds(ts) && ts != []
    ensures DistinctIds(ts[..|ts| - 1]) && JobId(ts[|ts| - 1]) !in JobIds(ts[..|ts| - 1])
    ensures JobIds(ts) == JobIds(ts[..|ts| - 1]) + {JobId(ts[|ts| - 1])}
  {
    var n := |ts| - 1;
    forall t | t in ts[..n] ensures JobId(t) != JobId(ts[n]) { JobIdsDiffer(t, ts[n]); }
    assert ts == ts[..n] + [ts[n]];
  }

  /** The visits do not disturb one another; they fail exactly when one trigger blocks. */
  lemma {:induction false} VisitsSettle(lib: Library, jobs: Jobs, ts: seq<Trigger>, now: int)
    requires DistinctIds(ts)
    ensures VisitAll(lib, jobs, ts, now).None? <==> exists t :: t in ts && Blocks(lib, jobs, t, now)
    ensures VisitAll(lib, jobs, ts, now).Some? ==>
      var (after, us) := VisitAll(lib, jobs, ts, now).value;
      AllSettled(lib, jobs, after, ts, us, now)
  {
    hide Visit, Blocks, Settled, JobIds, DistinctIds;
    if ts == [] { return; }
    var n := |ts| - 1;
    var rest, last := ts[..n], ts[n];
    assert ts == rest + [last];
    IdsBefore(ts);
    VisitsSettle(lib, jobs, rest, now);
    if VisitAll(lib, jobs, rest, now).Some? {
      var (mid, before) := VisitAll(lib, jobs, rest, now).value;
      BlocksFrame(lib, jobs, mid, last, now);
      VisitSettles(lib, mid, last, now);
      if Visit(lib, mid, last, now).Some? {
        var (after, u) := Visit(lib, mid, last, now).value;
        forall i | 0 <= i < |ts| ensures Settled(lib, jobs, after, ts[i], (before + [u])[i], now) {
          if i < n {
            assert rest[i] in rest && JobId(rest[i]) in JobIds(rest) by { JobIdIn(rest, i); }
            SettledFrame(lib, jobs, jobs, mid, after, rest[i], before[i], now);
          } else {
            SettledFrame(lib, jobs, mid, after, after, last, u, now);
          }
        }
        forall id | id !in JobIds(ts) ensures SameAt(jobs, after, id) {
          assert id !in JobIds(rest) && id != JobId(last);
          assert SameAt(jobs, mid, id) && SameAt(mid, after, id);
        }
      }
    }
  }

  lemma JobIdIn(ts: seq<Trigger>, i: nat)
    requires i < |ts|
    ensures JobId(ts[i]) in JobIds(ts)
  {
  }

  // ---- The main results ------------------------------------------------------------

  lemma SchedulableId(ts: seq<Trigger>, i: nat, now: int)
    requires DistinctIds(ts) && i < |ts|
    ensures JobId(ts[i]) in SchedulableIds(ts, now) <==> IsSchedulable(ts[i], now)
  {
    if JobId(ts[i]) in SchedulableIds(ts, now) {
      var j :| 0 <= j < |ts| && IsSchedulable(ts[j], now) && JobId(ts[j]) == JobId(ts[i]);
      if j != i { JobIdsDiffer(ts[i], ts[j]); }
    }
  }

  /** Removing stale jobs leaves alone what belongs to a schedulable trigger. */
  lemma PruneKeeps(jobs: Jobs, ts: seq<Trigger>, i: nat, now: int)
    requires DistinctIds(ts) && i < |ts|
    ensures IsSchedulable(ts[i], now) ==> SameAt(jobs, jobs - Stale(jobs, ts, now), JobId(ts[i]))
    ensures !IsSchedulable(ts[i], now) ==> JobId(ts[i]) !in jobs - Stale(jobs, ts, now)
  {
    SchedulableId(ts, i, now);
    JobIdIsTriggerJob(ts[i]);
  }

  /** A pass fails exactly when some schedulable trigger without an up-to-date job cannot be registered. */
  lemma PassFailsExactly(lib: Library, jobs: Jobs, ts: seq<Trigger>, now: int)
    requires DistinctIds(ts)
    ensures Pass(lib, jobs, ts, now).None? <==> exists t :: t in ts && Blocks(lib, jobs, t, now)
  {
    var pruned := jobs - Stale(jobs, ts, now);
    VisitsSettle(lib, pruned, ts, now);
    forall t | t in ts ensures Blocks(lib, pruned, t, now) <==> Blocks(lib, jobs, t, now) {
      var i :| 0 <= i < |ts| && ts[i] == t;
      PruneKeeps(jobs, ts, i, now);
    }
  }

  /** What holds between the job table and the triggers after a pass. */
  ghost predicate Agree(lib: Library, jobs: Jobs, after: Jobs, ts: seq<Trigger>, us: seq<Trigger>, now: int) {
    && |us| == |ts|
    && (forall id | id in after && IsTriggerJob(id) :: id in SchedulableIds(ts, now))
    && (forall id | !IsTriggerJob(id) :: SameAt(jobs, after, id))
    && (forall i | 0 <= i < |ts| ::
          && us[i] == ts[i].(status := us[i].status, nextRunAt := us[i].nextRunAt)
          && us[i].status == (if ts[i].status == "active" && !IsSchedulable(ts[i], now) then "completed"
            else ts[i].status)
          && us[i].nextRunAt == (if UpToDate(lib, after, us[i]) then after[JobId(ts[i])].nextRunAt else None)
          && (IsSchedulable(ts[i], now) ==>
                (UpToDate(lib, after, us[i]) <==> UpToDate(lib, jobs, ts[i]) || lib.add(ts[i].schedule).Registered?)))
  }

  /**
   * After a pass no trigger job is left for anything but a schedulable trigger, a schedulable
   * trigger has a job with its current fingerprint exactly when it had one or could be
   * registered, other jobs are untouched, and a status only moves from active to completed.
   */
  lemma PassAgrees(lib: Library, jobs: Jobs, ts: seq<Trigger>, now: int)
    requires DistinctIds(ts) && Pass(lib, jobs, ts, now).Some?
    ensures
      var (after, us) := Pass(lib, jobs, ts, now).value;
      Agree(lib, jobs, after, ts, us, now)
  {
    var pruned := jobs - Stale(jobs, ts, now);
    var (after, us) := Pass(lib, jobs, ts, now).value;
    VisitsSettle(lib, pruned, ts, now);
    forall id | id in after && IsTriggerJob(id) ensures id in SchedulableIds(ts, now) {
      if id in JobIds(ts) {
        var t :| t in ts && JobId(t) == id;
        var i :| 0 <= i < |ts| && ts[i] == t;
        SettledMeans(lib, jobs, after, ts, us, i, now);
        SchedulableId(ts, i, now);
      } else {
        assert SameAt(pruned, after, id);
      }
    }
    forall id | !IsTriggerJob(id) ensures SameAt(jobs, after, id) {
      assert id !in JobIds(ts) by {
        forall t | t in ts ensures JobId(t) != id { JobIdIsTriggerJob(t); }
      }
      assert SameAt(pruned, after, id);
    }
    forall i | 0 <= i < |ts| {
      SettledMeans(lib, jobs, after, ts, us, i, now);
    }
  }

  /** What a pass leaves for one trigger, in terms of the table it started from. */
  lemma SettledMeans(lib: Library, jobs: Jobs, after: Jobs, ts: seq<Trigger>, us: seq<Trigger>, i: nat, now: int)
    requires DistinctIds(ts) && i < |ts| && AllSettled(lib, jobs - Stale(jobs, ts, now), after, ts, us, now)
    ensures !IsSchedulable(ts[i], now) ==> JobId(ts[i]) !in after
    ensures us[i] == ts[i].(status := us[i].status, nextRunAt := us[i].nextRunAt)
    ensures us[i].status == if ts[i].status == "active" && !IsSchedulable(ts[i], now) then "completed" else ts[i].status
    ensures us[i].nextRunAt == if UpToDate(lib, after, us[i]) then after[JobId(ts[i])].nextRunAt else None
    ensures IsSchedulable(ts[i], now) ==>
      (UpToDate(lib, after, us[i]) <==> UpToDate(lib, jobs, ts[i]) || lib.add(ts[i].schedule).Registered?)
    ensures IsSchedulable(ts[i], now) && !UpToDate(lib, after, us[i]) ==>
      lib.add(ts[i].schedule).NotRegistered? && us[i].nextRunAt == None
  {
    PruneKeeps(jobs, ts, i, now);
    assert Settled(lib, jobs - Stale(jobs, ts, now), after, ts[i], us[i], now);
  }

  /** A second pass at the same time succeeds and changes nothing. */
  lemma PassIdempotent(lib: Library, jobs: Jobs, ts: seq<Trigger>, now: int)
    requires DistinctIds(ts) && Pass(lib, jobs, ts, now).Some?
    ensures
      var (after, us) := Pass(lib, jobs, ts, now).value;
      Pass(lib, after, us, now) == Some((after, us))
  {
    var (after, us) := Pass(lib, jobs, ts, now).value;
    PassAgrees(lib, jobs, ts, now);
    VisitsSettle(lib, jobs - Stale(jobs, ts, now), ts, now);
    forall i | 0 <= i < |us| ensures Visit(lib, after, us[i], now) == Some((after, us[i])) {
      SettledMeans(lib, jobs, after, ts, us, i, now);
    }
    assert SchedulableIds(us, now) == SchedulableIds(ts, now) by { SameSchedulable(lib, jobs, after, ts, us, now); }
    assert Stale(after, us, now) == {};
    assert after - {} == after;
    VisitsChangeNothing(lib, after, us, now);
  }

  lemma SameSchedulable(lib: Library, jobs: Jobs, after: Jobs, ts: seq<Trigger>, us: seq<Trigger>, now: int)
    requires Agree(lib, jobs, after, ts, us, now)
    ensures SchedulableIds(us, now) == SchedulableIds(ts, now)
  {
    assert forall i | 0 <= i < |ts| ::
      IsSchedulable(us[i], now) == IsSchedulable(ts[i], now) && JobId(us[i]) == JobId(ts[i]);
    forall id ensures id in SchedulableIds(us, now) <==> id in SchedulableIds(ts, now) {
      if id in SchedulableIds(us, now) {
        var i :| 0 <= i < |us| && IsSchedulable(us[i], now) && JobId(us[i]) == id;
        assert IsSchedulable(ts[i], now) && JobId(ts[i]) == id;
      }
      if id in SchedulableIds(ts, now) {
        var i :| 0 <= i < |ts| && IsSchedulable(ts[i], now) && JobId(ts[i]) == id;
        assert IsSchedulable(us[i], now) && JobId(us[i]) == id;
      }
    }
  }

  lemma {:induction false} VisitsChangeNothing(lib: Library, jobs: Jobs, ts: seq<Trigger>, now: int)
    requires forall i | 0 <= i < |ts| :: Visit(lib, jobs, ts[i], now) == Some((jobs, ts[i]))
    ensures VisitAll(lib, jobs, ts, now) == Some((jobs, ts))
  {
    hide Visit;
    if ts != [] {
      var n := |ts| - 1;
      forall i | 0 <= i < n ensures Visit(lib, jobs, ts[..n][i], now) == Some((jobs, ts[..n][i])) {
        assert ts[..n][i] == ts[i];
      }
      VisitsChangeNothing(lib, jobs, ts[..n], now);
      assert ts == ts[..n] + [ts[n]];
    }
  }

  /**
   * Exactly when a schedulable trigger is left with a job that is not up to date: it had one
   * before, and its schedule can no longer be registered (its date was removed, say).  The job is
   * then the old one and still runs.
   */
  lemma OutdatedJobExactly(lib: Library, jobs: Jobs, ts: seq<Trigger>, i: nat, now: int)
    requires DistinctIds(ts) && Pass(lib, jobs, ts, now).Some? && i < |ts| && IsSchedulable(ts[i], now)
    ensures
      var after := Pass(lib, jobs, ts, now).value.0;
      var id := JobId(ts[i]);
      && (id in after && !UpToDate(lib, after, ts[i]) <==>
            id in jobs && !UpToDate(lib, jobs, ts[i]) && lib.add(ts[i].schedule).NotRegistered?)
      && (id in after && !UpToDate(lib, after, ts[i]) ==> after[id] == jobs[id])
  {
    VisitsSettle(lib, jobs - Stale(jobs, ts, now), ts, now);
    PruneKeeps(jobs, ts, i, now);
    assert Settled(lib, jobs - Stale(jobs, ts, now), Pass(lib, jobs, ts, now).value.0, ts[i],
      Pass(lib, jobs, ts, now).value.1[i], now);
  }

  // ---- The results in the triggers' own fields ----------------------------------------

  /**
   * What a pass leaves for each trigger.  Active, below its run limit and before its end, it keeps
   * its status, and its job is the one with its own arguments if there was one, else a new one if
   * the schedule can be registered, else whatever was there.  Otherwise its job is gone, and an
   * active status has become completed.
   */
  lemma PassSpelled(lib: Library, jobs: Jobs, ts: seq<Trigger>, i: nat, now: int)
    requires DistinctIds(ts) && Pass(lib, jobs, ts, now).Some? && i < |ts|
    ensures
      var (after, us) := Pass(lib, jobs, ts, now).value;
      var t, id := ts[i], "trigger_" + ts[i].id;
      var args := [t.id, lib.fingerprint(t.schedule)];
      |us| == |ts| &&
      if && t.status == "active" && (t.maxRuns == None || t.runCount < t.maxRuns.value)
         && (t.endAt == None || now < t.endAt.value)
      then
        if id in jobs && jobs[id].args == args then
          id in after && after[id] == jobs[id] && us[i] == t.(nextRunAt := jobs[id].nextRunAt)
        else
          match lib.add(t.schedule)
          case Registered(next) => id in after && after[id] == Job(args, next) && us[i] == t.(nextRunAt := next)
          case NotRegistered =>
            (if id in jobs then id in after && after[id] == jobs[id] else id !in after)
              && us[i] == t.(nextRunAt := None)
          case Rejected => false
      else
        && id !in after
        && us[i] == t.(status := if t.status == "active" then "completed" else t.status, nextRunAt := None)
  {
    var pruned := jobs - Stale(jobs, ts, now);
    VisitsSettle(lib, pruned, ts, now);
    PruneKeeps(jobs, ts, i, now);
    assert Settled(lib, pruned, Pass(lib, jobs, ts, now).value.0, ts[i], Pass(lib, jobs, ts, now).value.1[i], now);
  }

  /** A job left under the prefix belongs to a trigger that may run; a job without it stays as it was. */
  lemma JobsSpelled(lib: Library, jobs: Jobs, ts: seq<Trigger>, id: string, now: int)
    requires DistinctIds(ts) && Pass(lib, jobs, ts, now).Some?
    ensures
      var after := Pass(lib, jobs, ts, now).value.0;
      if |id| >= 8 && id[..8] == "trigger_" then
        id in after ==>
          exists t | t in ts ::
            && id == "trigger_" + t.id && t.status == "active" && (t.maxRuns == None || t.runCount < t.maxRuns.value)
            && (t.endAt == None || now < t.endAt.value)
      else if id in jobs then id in after && after[id] == jobs[id]
      else id !in after
  {
    hide Pass, DistinctIds;
    PassAgrees(lib, jobs, ts, now);
    var after := Pass(lib, jobs, ts, now).value.0;
    if !IsTriggerJob(id) {
      assert SameAt(jobs, after, id);
    } else if id in after {
      assert id in SchedulableIds(ts, now);
      var i :| 0 <= i < |ts| && IsSchedulable(ts[i], now) && JobId(ts[i]) == id;
      assert ts[i] in ts;
    }
  }

  /** A pass fails only on a trigger that may run, lacks its job and has a malformed schedule. */
  lemma PassFailsSpelled(lib: Library, jobs: Jobs, ts: seq<Trigger>, now: int)
    requires DistinctIds(ts)
    ensures Pass(lib, jobs, ts, now) == None <==>
      exists t | t in ts ::
        && t.status == "active" && (t.maxRuns == None || t.runCount < t.maxRuns.value)
        && (t.endAt == None || now < t.endAt.value) && lib.add(t.schedule) == Rejected
        && !("trigger_" + t.id in jobs && jobs["trigger_" + t.id].args == [t.id, lib.fingerprint(t.schedule)])
  {
    hide Pass, DistinctIds;
    PassFailsExactly(lib, jobs, ts, now);
    forall t | t in ts
      ensures Blocks(lib, jobs, t, now) <==>
        && t.status == "active" && (t.maxRuns == None || t.runCount < t.maxRuns.value)
        && (t.endAt == None || now < t.endAt.value) && lib.add(t.schedule) == Rejected
        && !("trigger_" + t.id in jobs && jobs["trigger_" + t.id].args == [t.id, lib.fingerprint(t.schedule)])
    {
    }
  }
}
