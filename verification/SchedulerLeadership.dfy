/**
 * Several backend processes competing for one session-level advisory lock: acquiring, checking
 * and releasing leadership, with every await a point where another process, the database
 * server or a failing connection may step in.
 */
module SchedulerLeadership {
  import opened Wrappers

  /** A database session, named by the process that opened it. */
  datatype Session = Session(owner: nat, number: nat)

  /** Where the call that holds a process's guard stands. */
  datatype Pc =
    | Idle
    | Opened(session: Session)
    | Answered(session: Session, won: bool)
    | Checked(session: Session, held: bool, call: Option<nat>)
    | Unlocking(session: Session)
    | Closing(session: Session)

  /** `cleared` are the job calls whose health check has returned true and whose body has not begun. */
  datatype Process = Process(connection: Option<Session>, pc: Pc, cleared: set<nat>)

  const NEW_PROCESS: Process := Process(None, Idle, {})

  /** The advisory lock: a session may take it more than once and then has to give it back as often. */
  datatype Lock = Free | Held(session: Session, count: nat)

  datatype Event =
    | Locked(session: Session)
    | Freed(session: Session)
    | Fenced(session: Session, call: Option<nat>)  // a health query found the lock held
    | Started(process: nat, job: nat)              // a job body began

  datatype System = System(
    processes: map<nat, Process>, lock: Lock, alive: set<Session>, next: nat, trace: seq<Event>)

  const BOOT: System := System(map[], Free, {}, 0, [])

  function Get(sys: System, p: nat): Process {
    if p in sys.processes then sys.processes[p] else NEW_PROCESS
  }

  function Put(sys: System, p: nat, process: Process): System {
    sys.(processes := sys.processes[p := process])
  }

  function Log(sys: System, e: Event): System { sys.(trace := sys.trace + [e]) }

  // ---- The database --------------------------------------------------------------

  predicate Holds(sys: System, s: Session) { sys.lock.Held? && sys.lock.session == s }

  /** `pg_try_advisory_lock` on a live session. */
  function TryLock(sys: System, s: Session): (System, bool) {
    if sys.lock.Free? then (Log(sys.(lock := Held(s, 1)), Locked(s)), true)
    else if sys.lock.session == s then (sys.(lock := Held(s, sys.lock.count + 1)), true)
    else (sys, false)
  }

  /** `pg_advisory_unlock` on a live session. */
  function UnlockOnce(sys: System, s: Session): System {
    if !Holds(sys, s) then sys
    else if sys.lock.count <= 1 then Log(sys.(lock := Free), Freed(s))
    else sys.(lock := Held(s, sys.lock.count - 1))
  }

  /** The server ends a session, and with it every lock the session has. */
  function EndSession(sys: System, s: Session): System {
    var gone := sys.(alive := sys.alive - {s});
    if Holds(sys, s) then Log(gone.(lock := Free), Freed(s)) else gone
  }

  // ---- Steps -----------------------------------------------------------------------

  /**
   * One step of one process, or of the server.  `raises` says that the client sees an
   * error, `reached` that the server has executed the statement all the same, and `ended`
   * that closing the connection really ends its session.
   */
  datatype Action =
    | Connect(p: nat, raises: bool)
    | AskLock(p: nat, raises: bool, reached: bool)
    | CommitLock(p: nat, raises: bool)
    | AskHealth(p: nat, call: Option<nat>, raises: bool)
    | CommitHealth(p: nat, raises: bool)
    | GiveUp(p: nat)
    | Unlock(p: nat, reached: bool)
    | Close(p: nat, ended: bool)
    | StartBody(p: nat, job: nat)
    | SessionEnds(session: Session)
    | ProcessDies(p: nat)

  /** The effect of an action; one that is not due changes nothing. */
  function Apply(sys: System, a: Action): System {
    match a
    case Connect(p, raises) =>
      var me := Get(sys, p);
      if me.pc != Idle || me.connection.Some? || raises then sys
      else
        var s := Session(p, sys.next);
        Put(sys.(alive := sys.alive + {s}, next := sys.next + 1), p, me.(pc := Opened(s)))
    case AskLock(p, raises, reached) =>
      var me := Get(sys, p);
      if !me.pc.Opened? then sys
      else
        var s := me.pc.session;
        if s !in sys.alive then Put(sys, p, me.(pc := Closing(s)))
        else if raises && !reached then Put(sys, p, me.(pc := Closing(s)))
        else
          var (after, won) := TryLock(sys, s);
          Put(after, p, me.(pc := if raises then Closing(s) else Answered(s, won)))
    case CommitLock(p, raises) =>
      var me := Get(sys, p);
      if !me.pc.Answered? then sys
      else
        var s := me.pc.session;
        if raises || s !in sys.alive || !me.pc.won then Put(sys, p, me.(pc := Closing(s)))
        else Put(sys, p, me.(pc := Idle, connection := Some(s)))
    case AskHealth(p, call, raises) =>
      var me := Get(sys, p);
      if me.pc != Idle || me.connection.None? || (call.Some? && call.value in me.cleared) then sys
      else
        var s := me.connection.value;
        var held := !raises && s in sys.alive && Holds(sys, s);
        Put(if held then Log(sys, Fenced(s, call)) else sys, p, me.(pc := Checked(s, held, call)))
    case CommitHealth(p, raises) =>
      var me := Get(sys, p);
      if !me.pc.Checked? then sys
      else if me.pc.held && !raises && me.pc.session in sys.alive then
        Put(sys, p, me.(pc := Idle, cleared := me.cleared + match me.pc.call case None => {} case Some(t) => {t}))
      else Put(sys, p, me.(pc := Closing(me.pc.session), connection := None))
    case GiveUp(p) =>
      var me := Get(sys, p);
      if me.pc != Idle || me.connection.None? then sys
      else Put(sys, p, me.(pc := Unlocking(me.connection.value), connection := None))
    case Unlock(p, reached) =>
      var me := Get(sys, p);
      if !me.pc.Unlocking? then sys
      else
        var s := me.pc.session;
        var after := if reached && s in sys.alive then UnlockOnce(sys, s) else sys;
        Put(after, p, me.(pc := Closing(s)))
    case Close(p, ended) =>
      var me := Get(sys, p);
      if !me.pc.Closing? then sys
      else Put(if ended then EndSession(sys, me.pc.session) else sys, p, me.(pc := Idle))
    case StartBody(p, call) =>
      var me := Get(sys, p);
      if call !in me.cleared then sys
      else Put(Log(sys, Started(p, call)), p, me.(cleared := me.cleared - {call}))
    case SessionEnds(s) => EndSession(sys, s)
    case ProcessDies(p) => Put(sys, p, NEW_PROCESS)
  }

  function Run(actions: seq<Action>): System {
    if actions == [] then BOOT else Apply(Run(actions[..|actions| - 1]), actions[|actions| - 1])
  }

  // ---- What traces say ---------------------------------------------------------------

  /** Who has the lock after a trace. */
  function HolderAfter(trace: seq<Event>): Option<Session> {
    if trace == [] then None
    else
      match trace[|trace| - 1]
      case Locked(s) => Some(s)
      case Freed(_) => None
      case _ => HolderAfter(trace[..|trace| - 1])
  }

  /** A fence of process `p` for `call` stands at position `i`, and no body has used it since. */
  predicate FenceAt(trace: seq<Event>, p: nat, call: nat, i: nat) {
    && i < |trace| && trace[i].Fenced? && trace[i].session.owner == p && trace[i].call == Some(call)
    && forall k | i < k < |trace| :: trace[k] != Started(p, call)
  }

  ghost predicate HasFence(trace: seq<Event>, p: nat, call: nat) {
    exists i :: FenceAt(trace, p, call, i)
  }

  /** The lock passes from hand to hand, fences are won only by its holder, bodies run only behind a fence. */
  ghost predicate Fits(before: seq<Event>, e: Event) {
    match e
    case Locked(_) => HolderAfter(before) == None
    case Freed(s) => HolderAfter(before) == Some(s)
    case Fenced(s, _) => HolderAfter(before) == Some(s)
    case Started(p, call) => HasFence(before, p, call)
  }

  ghost predicate EventFits(trace: seq<Event>, i: nat)
    requires i < |trace|
  {
    Fits(trace[..i], trace[i])
  }

  ghost predicate TraceFits(trace: seq<Event>) {
    forall i | 0 <= i < |trace| :: EventFits(trace, i)
  }

  // ---- Invariant -----------------------------------------------------------------------

  predicate Owned(sys: System, p: nat, s: Session) { s.owner == p && s.number < sys.next }

  /** A process only ever handles sessions of its own; one that has not asked for the lock does not have it. */
  ghost predicate ProcessOk(sys: System, p: nat) {
    var me := Get(sys, p);
    && (me.connection.Some? ==> Owned(sys, p, me.connection.value))
    && (!me.pc.Idle? ==> Owned(sys, p, me.pc.session))
    && (me.pc.Opened? ==> !Holds(sys, me.pc.session))
    && (me.pc.Checked? ==> me.connection == Some(me.pc.session))
    && (me.pc.Opened? || me.pc.Answered? || me.pc.Unlocking? || me.pc.Closing? ==> me.connection == None)
    && (forall call <- me.cleared :: HasFence(sys.trace, p, call))
    && (me.pc.Checked? && me.pc.held && me.pc.call.Some? ==>
         me.pc.call.value !in me.cleared && HasFence(sys.trace, p, me.pc.call.value))
  }

  ghost predicate LockOk(sys: System) {
    && (sys.lock.Held? ==> sys.lock.count == 1 && sys.lock.session in sys.alive)
    && (forall s <- sys.alive :: s.number < sys.next)
    && HolderAfter(sys.trace) == (match sys.lock case Free => None case Held(s, _) => Some(s))
  }

  ghost predicate Inv(sys: System) {
    LockOk(sys) && TraceFits(sys.trace) && forall p :: ProcessOk(sys, p)
  }

  lemma LogFits(trace: seq<Event>, e: Event)
    requires TraceFits(trace) && Fits(trace, e)
    ensures TraceFits(trace + [e])
    ensures HolderAfter(trace + [e])
      == match e case Locked(s) => Some(s) case Freed(_) => None case _ => HolderAfter(trace)
  {
    var grown := trace + [e];
    assert grown[..|trace|] == trace;
    forall i | 0 <= i < |grown| ensures EventFits(grown, i) {
      if i < |trace| {
        assert EventFits(trace, i) && grown[..i] == trace[..i] && grown[i] == trace[i];
      }
    }
  }

  /** A fence stays good until its own body starts. */
  lemma FenceLasts(trace: seq<Event>, e: Event, p: nat, call: nat)
    requires HasFence(trace, p, call) && e != Started(p, call)
    ensures HasFence(trace + [e], p, call)
  {
    var i :| FenceAt(trace, p, call, i);
    assert FenceAt(trace + [e], p, call, i);
  }

  lemma NewFence(trace: seq<Event>, s: Session, call: nat)
    ensures HasFence(trace + [Fenced(s, Some(call))], s.owner, call)
  {
    assert FenceAt(trace + [Fenced(s, Some(call))], s.owner, call, |trace|);
  }

  /**
   * What a step needs to show about the processes that take no part in it: they are
   * unchanged, their fences last, and the lock does not pass to their new session.
   */
  ghost predicate Untouched(sys: System, after: System, p: nat) {
    && Get(after, p) == Get(sys, p)
    && sys.next <= after.next
    && (forall s: Session | s.owner == p :: Holds(after, s) ==> Holds(sys, s))
    && (after.trace == sys.trace
        || (|after.trace| > 0 && after.trace == sys.trace + [after.trace[|after.trace| - 1]]
            && (after.trace[|after.trace| - 1].Started? ==> after.trace[|after.trace| - 1].process != p)))
  }

  lemma UntouchedOk(sys: System, after: System, p: nat)
    requires ProcessOk(sys, p) && Untouched(sys, after, p)
    ensures ProcessOk(after, p)
  {
    if after.trace != sys.trace {
      var e := after.trace[|after.trace| - 1];
      forall call | HasFence(sys.trace, p, call) ensures HasFence(after.trace, p, call) {
        FenceLasts(sys.trace, e, p, call);
      }
    }
  }

  lemma BootInv()
    ensures Inv(BOOT)
  {
  }

  function Actor(a: Action): Option<nat> {
    if a.SessionEnds? then None else Some(a.p)
  }

  lemma OthersUntouched(sys: System, a: Action, p: nat)
    requires Inv(sys) && Actor(a) != Some(p)
    ensures Untouched(sys, Apply(sys, a), p)
  {
    if Actor(a).Some? { assert ProcessOk(sys, a.p); }
  }

  lemma StepLock(sys: System, a: Action)
    requires Inv(sys)
    ensures LockOk(Apply(sys, a)) && TraceFits(Apply(sys, a).trace)
  {
    hide TraceFits, HolderAfter;
    if Actor(a).Some? { assert ProcessOk(sys, a.p); }
    forall e | Fits(sys.trace, e)
      ensures TraceFits(sys.trace + [e])
      ensures HolderAfter(sys.trace + [e])
        == match e case Locked(s) => Some(s) case Freed(_) => None case _ => HolderAfter(sys.trace)
    {
      LogFits(sys.trace, e);
    }
  }

  lemma StepActor(sys: System, a: Action)
    requires Inv(sys) && Actor(a).Some?
    ensures ProcessOk(Apply(sys, a), a.p)
  {
    var p := a.p;
    assert ProcessOk(sys, p);
    var after := Apply(sys, a);
    if after.trace != sys.trace {
      var e := after.trace[|after.trace| - 1];
      assert after.trace == sys.trace + [e];
      forall call | HasFence(sys.trace, p, call) && e != Started(p, call) ensures HasFence(after.trace, p, call) {
        FenceLasts(sys.trace, e, p, call);
      }
      if e.Fenced? && e.call.Some? { NewFence(sys.trace, e.session, e.call.value); }
    }
  }

  lemma StepInv(sys: System, a: Action)
    requires Inv(sys)
    ensures Inv(Apply(sys, a))
  {
    hide LockOk, TraceFits, ProcessOk, Apply;
    StepLock(sys, a);
    forall p: nat ensures ProcessOk(Apply(sys, a), p) {
      if Actor(a) == Some(p) {
        StepActor(sys, a);
      } else {
        OthersUntouched(sys, a, p);
        UntouchedOk(sys, Apply(sys, a), p);
      }
    }
  }

  lemma {:induction false} RunInv(actions: seq<Action>)
    ensures Inv(Run(actions))
  {
    hide Inv, Apply;
    if actions == [] {
      BootInv();
    } else {
      RunInv(actions[..|actions| - 1]);
      StepInv(Run(actions[..|actions| - 1]), actions[|actions| - 1]);
    }
  }

  // ---- Fencing over whole runs ---------------------------------------------------------

  /** If the holder changes along a fitting trace, the old one freed the lock and the new one took it after that. */
  lemma {:induction false} HandOver(trace: seq<Event>, i: nat, j: nat, s: Session, t: Session)
    returns (freed: nat, locked: nat)
    requires TraceFits(trace) && i <= j <= |trace| && s != t
    requires HolderAfter(trace[..i]) == Some(s) && HolderAfter(trace[..j]) == Some(t)
    ensures i <= freed < locked < j && trace[freed] == Freed(s) && trace[locked] == Locked(t)
    decreases j
  {
    assert i < j;
    assert trace[..j][..j - 1] == trace[..j - 1];
    assert EventFits(trace, j - 1);
    if trace[j - 1].Locked? {
      locked := j - 1;
      freed := LosesLock(trace, i, j - 1, s);
    } else {
      freed, locked := HandOver(trace, i, j - 1, s, t);
    }
  }

  lemma {:induction false} LosesLock(trace: seq<Event>, i: nat, j: nat, s: Session)
    returns (freed: nat)
    requires TraceFits(trace) && i <= j <= |trace|
    requires HolderAfter(trace[..i]) == Some(s) && HolderAfter(trace[..j]) != Some(s)
    ensures i <= freed < j && trace[freed] == Freed(s)
    decreases j
  {
    assert i < j;
    assert trace[..j][..j - 1] == trace[..j - 1];
    assert EventFits(trace, j - 1);
    if HolderAfter(trace[..j - 1]) == Some(s) {
      freed := j - 1;
    } else {
      freed := LosesLock(trace, i, j - 1, s);
    }
  }

  /**
   * In every run, between two fences won by different processes (or by one process in
   * different sessions) the first session gave the lock up and the second took it afterwards.
   */
  lemma FencesHandOver(actions: seq<Action>, i: nat, j: nat)
    returns (freed: nat, locked: nat)
    requires i < j < |Run(actions).trace|
    requires Run(actions).trace[i].Fenced? && Run(actions).trace[j].Fenced?
    requires Run(actions).trace[i].session != Run(actions).trace[j].session
    ensures
      var trace := Run(actions).trace;
      && i < freed < locked < j
      && trace[freed] == Freed(trace[i].session) && trace[locked] == Locked(trace[j].session)
  {
    RunInv(actions);
    hide Run, ProcessOk;
    var trace := Run(actions).trace;
    assert EventFits(trace, i) && EventFits(trace, j);
    freed, locked := HandOver(trace, i, j, trace[i].session, trace[j].session);
  }

  // ---- A session takes the lock at most once

  /** Sessions not yet opened, and those that have not asked for the lock, have never had it; nobody had it twice. */
  ghost predicate OnceInv(sys: System) {
    && (forall i | 0 <= i < |sys.trace| && sys.trace[i].Locked? :: sys.trace[i].session.number < sys.next)
    && (forall p: nat :: Get(sys, p).pc.Opened? ==> Locked(Get(sys, p).pc.session) !in sys.trace)
    && (forall i, j | 0 <= i < j < |sys.trace| && sys.trace[i].Locked? :: sys.trace[i] != sys.trace[j])
  }

  /** Only a session that has just been opened can take a free lock. */
  lemma NewLock(sys: System, a: Action)
    requires Inv(sys)
    ensures
      || Apply(sys, a).trace == sys.trace
      || exists e ::
           && Apply(sys, a).trace == sys.trace + [e] && Apply(sys, a).trace[|sys.trace|] == e
           && (e.Locked? ==> Actor(a).Some? && Get(sys, a.p).pc == Opened(e.session))
  {
    if Actor(a).Some? { assert ProcessOk(sys, a.p); }
    if Apply(sys, a).trace != sys.trace {
      var e := Apply(sys, a).trace[|sys.trace|];
      assert Apply(sys, a).trace == sys.trace + [e];
    }
  }

  /** A process opens only sessions that no one has had, and others keep what they have. */
  lemma OpenedAfter(sys: System, a: Action, p: nat)
    requires Inv(sys) && Get(Apply(sys, a), p).pc.Opened?
    ensures
      var s := Get(Apply(sys, a), p).pc.session;
      s.owner == p && sys.next <= Apply(sys, a).next
      && (Get(sys, p).pc == Opened(s) || (s.number == sys.next && Apply(sys, a).trace == sys.trace))
      && (Actor(a) == Some(p) && |Apply(sys, a).trace| > |sys.trace| ==> !Apply(sys, a).trace[|sys.trace|].Locked?)
  {
    assert ProcessOk(sys, p);
  }

  lemma NextGrows(sys: System, a: Action)
    ensures sys.next <= Apply(sys, a).next
  {
  }

  lemma StepOnce(sys: System, a: Action)
    requires Inv(sys) && OnceInv(sys)
    ensures OnceInv(Apply(sys, a))
  {
    var after := Apply(sys, a);
    hide Inv, Apply, ProcessOk;
    NewLock(sys, a);
    NextGrows(sys, a);
    if Actor(a).Some? && Get(sys, a.p).pc.Opened? { OwnSession(sys, a.p); }
    forall p: nat | Get(after, p).pc.Opened? ensures Locked(Get(after, p).pc.session) !in after.trace {
      OpenedAfter(sys, a, p);
      var s := Get(after, p).pc.session;
      assert Locked(s) !in sys.trace;
    }
  }

  lemma OwnSession(sys: System, p: nat)
    requires Inv(sys) && Get(sys, p).pc.Opened?
    ensures Owned(sys, p, Get(sys, p).pc.session)
  {
    assert ProcessOk(sys, p);
  }

  lemma {:induction false} RunOnce(actions: seq<Action>)
    ensures OnceInv(Run(actions))
  {
    hide Inv, Apply, OnceInv;
    if actions == [] {
      assert OnceInv(BOOT) by { BootOnce(); }
    } else {
      var before := actions[..|actions| - 1];
      RunOnce(before);
      RunInv(before);
      StepOnce(Run(before), actions[|actions| - 1]);
    }
  }

  lemma BootOnce()
    ensures OnceInv(BOOT)
  {
  }

  /** In no run does a session take the lock twice. */
  lemma LockedOnce(actions: seq<Action>, i: nat, j: nat)
    requires i < |Run(actions).trace| && j < |Run(actions).trace|
    requires Run(actions).trace[i].Locked? && Run(actions).trace[i] == Run(actions).trace[j]
    ensures i == j
  {
    RunOnce(actions);
    hide Run;
  }

  /**
   * In every run, each job body starts behind a health check of its own process, made for
   * that very call, at an instant when a session of that process held the lock; no check
   * serves two bodies.
   */
  lemma BodiesAreFenced(actions: seq<Action>, j: nat) returns (i: nat)
    requires j < |Run(actions).trace| && Run(actions).trace[j].Started?
    ensures
      var trace := Run(actions).trace;
      var p, call := trace[j].process, trace[j].job;
      && i < j && trace[i].Fenced? && trace[i].call == Some(call) && trace[i].session.owner == p
      && HolderAfter(trace[..i]) == Some(trace[i].session)
      && forall k | i < k < j :: trace[k] != Started(p, call)
  {
    RunInv(actions);
    hide Run, ProcessOk, HolderAfter;
    var trace := Run(actions).trace;
    assert EventFits(trace, j);
    i :| FenceAt(trace[..j], trace[j].process, trace[j].job, i);
    assert EventFits(trace, i);
    assert forall k | i < k < j :: trace[..j][k] == trace[k];
  }

  /** Who did not have the lock and has it now took it in between. */
  lemma {:induction false} GainsLock(trace: seq<Event>, i: nat, j: nat, s: Session)
    returns (locked: nat)
    requires i <= j <= |trace|
    requires HolderAfter(trace[..i]) != Some(s) && HolderAfter(trace[..j]) == Some(s)
    ensures i <= locked < j && trace[locked] == Locked(s)
    decreases j
  {
    assert i < j;
    assert trace[..j][..j - 1] == trace[..j - 1];
    if HolderAfter(trace[..j - 1]) == Some(s) {
      locked := GainsLock(trace, i, j - 1, s);
    } else {
      locked := j - 1;
    }
  }

  /** A session that has freed the lock does not get it back. */
  lemma FreedForGood(actions: seq<Action>, i: nat, k: nat, j: nat, s: Session)
    requires i <= k < j <= |Run(actions).trace|
    requires HolderAfter(Run(actions).trace[..i]) == Some(s) && Run(actions).trace[k] == Freed(s)
    ensures HolderAfter(Run(actions).trace[..j]) != Some(s)
  {
    hide Run, HolderAfter;
    var trace := Run(actions).trace;
    EmptyHolder(trace);
    FreedHolder(trace, k);
    var first := GainsLock(trace, 0, i, s);
    if HolderAfter(trace[..j]) == Some(s) {
      var second := GainsLock(trace, k + 1, j, s);
      LockedOnce(actions, first, second);
    }
  }

  /**
   * Exactly when a body starts under the lock: the session of the fence behind it still holds
   * the lock if and only if it has not lost or released it since the fence.
   */
  lemma BodyUnderLockExactly(actions: seq<Action>, j: nat) returns (i: nat)
    requires j < |Run(actions).trace| && Run(actions).trace[j].Started?
    ensures
      var trace := Run(actions).trace;
      && i < j && trace[i].Fenced? && trace[i].session.owner == trace[j].process && trace[i].call == Some(trace[j].job)
      && (HolderAfter(trace[..j]) == Some(trace[i].session)
          <==> forall k | i < k < j :: trace[k] != Freed(trace[i].session))
  {
    i := BodiesAreFenced(actions, j);
    RunInv(actions);
    hide Run, ProcessOk, HolderAfter, EventFits;
    var trace := Run(actions).trace;
    var s := trace[i].session;
    if HolderAfter(trace[..j]) == Some(s) {
      forall k | i < k < j ensures trace[k] != Freed(s) {
        if trace[k] == Freed(s) { FreedForGood(actions, i, k, j, s); }
      }
    } else {
      var freed := LosesLock(trace, i, j, s);
    }
  }

  lemma EmptyHolder(trace: seq<Event>)
    ensures HolderAfter(trace[..0]) == None
  {
  }

  lemma FreedHolder(trace: seq<Event>, k: nat)
    requires k < |trace| && trace[k].Freed?
    ensures HolderAfter(trace[..k + 1]) == None
  {
  }

  predicate Leads(sys: System, p: nat) {
    var me := Get(sys, p);
    me.connection.Some? && Holds(sys, me.connection.value)
  }

  /** At no time would two processes both pass a health check. */
  lemma OneLeader(actions: seq<Action>, p: nat, q: nat)
    requires Leads(Run(actions), p) && Leads(Run(actions), q)
    ensures p == q
  {
    RunInv(actions);
    hide Run;
    assert ProcessOk(Run(actions), p) && ProcessOk(Run(actions), q);
  }

  /** No session ever has the lock twice, so one unlock that reaches the server frees it. */
  lemma OneUnlockFrees(actions: seq<Action>, p: nat)
    requires
      var pc := Get(Run(actions), p).pc;
      pc.Unlocking? && Holds(Run(actions), pc.session)
    ensures Apply(Run(actions), Unlock(p, true)).lock == Free
  {
    RunInv(actions);
    hide Run;
    assert ProcessOk(Run(actions), p);
  }

  // ---- What the steps achieve ----------------------------------------------------------

  /**
   * A health check clears its call exactly when no error strikes and the process's own session
   * holds the lock; otherwise the process gives up its connection.  A cleared call starts its
   * body once, and one that is not cleared does not start.
   */
  lemma HealthExactly(actions: seq<Action>, p: nat, call: nat, asking: bool, committing: bool)
    requires
      var me := Get(Run(actions), p);
      me.pc == Idle && me.connection.Some? && call !in me.cleared
    ensures
      var sys := Run(actions);
      var s := Get(sys, p).connection.value;
      var checked := Apply(Apply(sys, AskHealth(p, Some(call), asking)), CommitHealth(p, committing));
      var started := Apply(checked, StartBody(p, call));
      && checked.lock == sys.lock
      && if !asking && !committing && sys.lock.Held? && sys.lock.session == s then
           && Get(checked, p) == Process(Some(s), Idle, Get(sys, p).cleared + {call})
           && checked.trace == sys.trace + [Fenced(s, Some(call))]
           && started.trace == checked.trace + [Started(p, call)] && Apply(started, StartBody(p, call)) == started
         else
           Get(checked, p).connection == None && call !in Get(checked, p).cleared && started == checked
  {
    RunInv(actions);
    assert ProcessOk(Run(actions), p);
    hide Run, HolderAfter, TraceFits, HasFence;
  }

  /**
   * A process without a session gets the lock exactly when it is free and no error strikes.  An
   * attempt that fails leaves the lock as it was once its connection is closed.
   */
  lemma AcquireExactly(actions: seq<Action>, p: nat, asking: bool, reached: bool, committing: bool)
    requires Get(Run(actions), p).pc == Idle && Get(Run(actions), p).connection == None
    ensures
      var sys := Run(actions);
      var asked := Apply(Apply(sys, Connect(p, false)), AskLock(p, asking, reached));
      var after := Apply(asked, CommitLock(p, committing));
      if sys.lock == Free && !asking && !committing then
        && after.lock == Held(Session(p, sys.next), 1)
        && Get(after, p).connection == Some(Session(p, sys.next)) && Get(after, p).pc == Idle
      else
        && Get(after, p).connection == None
        && (!asking || reached ==> Apply(after, Close(p, true)).lock == sys.lock)
        && (asking && !reached ==> after.lock == sys.lock)
  {
    RunInv(actions);
    hide Run, HolderAfter, TraceFits, ProcessOk;
  }

  /** Giving up frees the lock when the unlock reaches the server, and in any case when the session ends. */
  lemma ReleaseExactly(actions: seq<Action>, p: nat, reached: bool, ended: bool)
    requires Get(Run(actions), p).pc == Idle && Leads(Run(actions), p)
    ensures
      var sys := Run(actions);
      var after := Apply(Apply(Apply(sys, GiveUp(p)), Unlock(p, reached)), Close(p, ended));
      && Get(after, p).connection == None && Get(after, p).pc == Idle
      && after.lock == if reached || ended then Free else sys.lock
  {
    RunInv(actions);
    assert ProcessOk(Run(actions), p);
    hide Run, HolderAfter, TraceFits, HasFence;
  }

  /**
   * The lock is given back as often as it was taken: an unlock undoes the lock before it, and
   * only a lock that another session has is refused.
   */
  lemma UnlockUndoesLock(sys: System, s: Session)
    requires sys.lock.Held? ==> sys.lock.count > 0
    ensures
      var (after, won) := TryLock(sys, s);
      && (won <==> sys.lock == Free || sys.lock.session == s)
      && (won ==> Holds(after, s) && UnlockOnce(after, s).lock == sys.lock)
      && (!won ==> after == sys && UnlockOnce(after, s) == sys)
  {
  }

  /**
   * A process that dies forgets its session and every call it had cleared, so that none of them
   * starts; its lock stays until the server ends the session, and then it is free.
   */
  lemma DeathExactly(actions: seq<Action>, p: nat, call: nat)
    ensures
      var sys := Run(actions);
      var dead := Apply(sys, ProcessDies(p));
      && Get(dead, p) == Process(None, Idle, {}) && (forall q | q != p :: Get(dead, q) == Get(sys, q))
      && dead.lock == sys.lock && dead.alive == sys.alive && dead.trace == sys.trace
      && Apply(dead, StartBody(p, call)) == dead
      && (sys.lock.Held? ==>
            var ended := Apply(dead, SessionEnds(sys.lock.session));
            ended.lock == Free && sys.lock.session !in ended.alive)
  {
    hide Run;
  }

  /**
   * When the server has ended the session that a call works on, the call's next step, whichever
   * it is, goes on to close the connection and touches neither lock nor trace.
   */
  lemma EndedSessionCloses(sys: System, p: nat, raises: bool, reached: bool)
    requires
      var pc := Get(sys, p).pc;
      !pc.Idle? && !pc.Closing? && pc.session !in sys.alive
    ensures
      var me := Get(sys, p);
      var due := match me.pc
        case Opened(_) => AskLock(p, raises, reached)
        case Answered(_, _) => CommitLock(p, raises)
        case Checked(_, _, _) => CommitHealth(p, raises)
        case _ => Unlock(p, reached);
      var after := Apply(sys, due);
      && Get(after, p).pc == Closing(me.pc.session) && Get(after, p).cleared == me.cleared
      && (Get(after, p).connection == if me.pc.Checked? then None else me.connection)
      && after.lock == sys.lock && after.trace == sys.trace && after.alive == sys.alive
  {
  }

  lemma RunSnoc(actions: seq<Action>, a: Action)
    ensures Run(actions + [a]) == Apply(Run(actions), a)
  {
    assert (actions + [a])[..|actions|] == actions;
  }

  const FIRST_SESSION: Session := Session(0, 0)
  const SECOND_SESSION: Session := Session(1, 1)

  /** Process 0 leads and has cleared its call 7. */
  const CLEARED: System := System(
    map[0 := Process(Some(FIRST_SESSION), Idle, {7})], Held(FIRST_SESSION, 1), {FIRST_SESSION}, 1,
    [Locked(FIRST_SESSION), Fenced(FIRST_SESSION, Some(7))])

  lemma RunsToCleared() returns (actions: seq<Action>)
    ensures Run(actions) == CLEARED
  {
    hide Run;
    assert Run([]) == BOOT by { EmptyRun(); }
    RunSnoc([], Connect(0, false));
    actions := [] + [Connect(0, false)];
    RunSnoc(actions, AskLock(0, false, true));
    actions := actions + [AskLock(0, false, true)];
    RunSnoc(actions, CommitLock(0, false));
    actions := actions + [CommitLock(0, false)];
    RunSnoc(actions, AskHealth(0, Some(7), false));
    actions := actions + [AskHealth(0, Some(7), false)];
    RunSnoc(actions, CommitHealth(0, false));
    actions := actions + [CommitHealth(0, false)];
    var sys := Run(actions);
    assert sys.alive == CLEARED.alive && sys.trace == CLEARED.trace && sys.next == CLEARED.next;
    assert sys.processes == CLEARED.processes by {
      assert Get(sys, 0).cleared == {7};
      assert sys.processes.Keys == {0};
    }
  }

  lemma EmptyRun()
    ensures Run([]) == BOOT
  {
  }

  /**
   * The fence is a check before the body and not a lease: a run in which a body starts
   * although its process has already lost the lock to another.
   */
  lemma BodyAfterLoss() returns (actions: seq<Action>)
    ensures
      var sys := Run(actions);
      && sys.trace != [] && sys.trace[|sys.trace| - 1] == Started(0, 7)
      && Leads(sys, 1) && !Leads(sys, 0)
  {
    hide Run;
    actions := RunsToCleared();
    RunSnoc(actions, SessionEnds(FIRST_SESSION));
    actions := actions + [SessionEnds(FIRST_SESSION)];
    RunSnoc(actions, Connect(1, false));
    actions := actions + [Connect(1, false)];
    RunSnoc(actions, AskLock(1, false, true));
    actions := actions + [AskLock(1, false, true)];
    RunSnoc(actions, CommitLock(1, false));
    actions := actions + [CommitLock(1, false)];
    RunSnoc(actions, StartBody(0, 7));
    actions := actions + [StartBody(0, 7)];
  }
}
