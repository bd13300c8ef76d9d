/** What holds over every run of the evidence root. */
module AttemptTheorems {
  import opened Wrappers
  import opened AttemptModel
  import opened OperationsLedger
  import opened AttemptTransitions
  import opened AttemptInvariant
  import opened AttemptSafety
  import opened AttemptSteps
  import opened AttemptRecovery
  import opened AttemptRuns

  /** One thing that can happen to the root while the writer lock is held, or to its evidence files. */
  datatype Op =
    | Invocation(cmd: Command, budget: nat)
    | OrdinaryAppend(task: string, action: string, arguments: string, status: string, expected: Option<Digest>)
    | EvidenceChange(attempts: map<Digest, Files>, captures: Captures)

  function Execute(env: Environment, d: Disk, op: Op): Disk {
    match op
    case Invocation(cmd, budget) => Invoke(env, cmd, d, budget).disk
    case OrdinaryAppend(task, action, arguments, status, expected) =>
      (match Append(env, d, task, Ordinary(action, arguments), status, expected, false)
       case Failure(_) => d
       case Success(ledger) => d.(ledger := ledger))
    case EvidenceChange(attempts, captures) => d.(attempts := attempts, captures := captures)
  }

  function ExecuteAll(env: Environment, d: Disk, ops: seq<Op>): Disk
    decreases |ops|
  {
    if ops == [] then d else ExecuteAll(env, Execute(env, d, ops[0]), ops[1..])
  }

  // ---- Safety

  lemma {:induction false} RunKeepsInv(env: Environment, cmd: Command, d: Disk, budget: nat)
    requires Inv(env, d)
    ensures Inv(env, Run(env, cmd, d, budget).disk)
    decreases budget, 1
  {
    StepKeepsInv(env, cmd, d);
    RunStep(env, cmd, d, Step(env, cmd, d), budget);
    StepThenRunKeepsInv(env, cmd, Step(env, cmd, d), budget);
  }

  lemma {:induction false} StepThenRunKeepsInv(env: Environment, cmd: Command, r: StepResult, budget: nat)
    requires StepSafe(env, r)
    ensures r.Write? && budget > 0 ==> Inv(env, Run(env, cmd, r.next, budget - 1).disk)
    decreases budget, 0
  {
    hide Step, Inv;
    if r.Write? && budget > 0 { RunKeepsInv(env, cmd, r.next, budget - 1); }
  }

  /** When an ordinary append is accepted, in every reachable state. */
  lemma OrdinaryAppendAdmitted(env: Environment, d: Disk, task: string, action: string, arguments: string,
                               status: string, expected: Option<Digest>)
    requires Inv(env, d)
    ensures Append(env, d, task, Ordinary(action, arguments), status, expected, false).Success? <==>
              && action !in LIFECYCLE_ACTIONS
              && env.admissible(task, Ordinary(action, arguments), status)
              && PendingKeys(d.journals) == {}
              && !(d.pointer.Some? && d.pointer.value.status == Sealed)
              && !TipIsPassedSeal(d.ledger)
              && (expected == None || expected == Some(Tip(d.ledger)))
  {
    hide ChainOk;
    PendingJournalIs(d.journals);
  }

  lemma OrdinaryAppendKeepsInv(env: Environment, d: Disk, task: string, action: string, arguments: string,
                               status: string, expected: Option<Digest>)
    requires Inv(env, d)
    ensures Inv(env, Execute(env, d, OrdinaryAppend(task, action, arguments, status, expected)))
  {
    OrdinaryAppendAdmitted(env, d, task, action, arguments, status, expected);
    hide Inv, GateRefusal, ChainOk, PendingKeys;
    if Append(env, d, task, Ordinary(action, arguments), status, expected, false).Success? {
      OrdinaryEntryKeepsInv(env, d, task, Ordinary(action, arguments), status);
    }
  }

  /** An ordinary entry changes nothing that the invariant ties together when nothing is pending or sealed. */
  lemma OrdinaryEntryKeepsInv(env: Environment, d: Disk, task: string, event: Event, status: string)
    requires Inv(env, d) && PendingKeys(d.journals) == {} && !(d.pointer.Some? && d.pointer.value.status == Sealed)
    requires d.ledger != [] && event.Ordinary? && event.action !in LIFECYCLE_ACTIONS
    requires env.admissible(task, event, status)
    ensures Inv(env, d.(ledger := d.ledger + [NextEntry(env, d.ledger, task, event, status)]))
  {
    hide LedgerSound, JournalsSound, CommittedHappened, EventsJournaled, TrustedPointer, Tied, Fold;
    OrdinaryKeepsLedger(env, d.ledger, task, event, status);
    OrdinaryKeepsHistory(d.ledger, d.journals, NextEntry(env, d.ledger, task, event, status));
  }

  lemma OrdinaryKeepsLedger(env: Environment, ledger: seq<Entry>, task: string, event: Event, status: string)
    requires LedgerSound(env, ledger) && ledger != [] && env.admissible(task, event, status)
    requires event.Ordinary? && event.action !in LIFECYCLE_ACTIONS
    ensures var longer := ledger + [NextEntry(env, ledger, task, event, status)];
            LedgerSound(env, longer) && Active(longer) == Active(ledger)
  {
    var e := NextEntry(env, ledger, task, event, status);
    AppendChain(env, ledger, task, event, status);
    AppendFold(ledger, e);
    hide ChainOk, Fold;
    assert forall i | 0 <= i < |ledger| + 1 :: EventBound((ledger + [e])[i]);
  }

  lemma OrdinaryKeepsHistory(ledger: seq<Entry>, journals: map<JournalKey, Journal>, e: Entry)
    requires CommittedHappened(ledger, journals) && EventsJournaled(ledger, journals) && e.event.Ordinary?
    ensures CommittedHappened(ledger + [e], journals) && EventsJournaled(ledger + [e], journals)
  {
    forall k | k in journals && WellShaped(journals[k]) && k.kind != Seal && journals[k].kind != Seal
               && journals[k].phase == Committed
      ensures Happened(ledger + [e], ExpectedEvent(journals[k]))
    {
      HappenedExtends(ledger, e, ExpectedEvent(journals[k]));
    }
  }

  lemma ExecuteKeepsInv(env: Environment, d: Disk, op: Op)
    requires Inv(env, d)
    ensures Inv(env, Execute(env, d, op))
  {
    match op
    case Invocation(cmd, budget) =>
      ValidatedOnce(env, cmd, d, budget);
      RunKeepsInv(env, cmd, d, budget);
    case OrdinaryAppend(task, action, arguments, status, expected) =>
      OrdinaryAppendKeepsInv(env, d, task, action, arguments, status, expected);
    case EvidenceChange(attempts, captures) =>
      EvidenceKeepsInv(env, d, attempts, captures);
  }

  lemma {:induction false} RunsKeepInv(env: Environment, d: Disk, ops: seq<Op>)
    requires Inv(env, d)
    ensures Inv(env, ExecuteAll(env, d, ops))
    decreases |ops|
  {
    if ops != [] {
      ExecuteKeepsInv(env, d, ops[0]);
      RunsKeepInv(env, Execute(env, d, ops[0]), ops[1..]);
    }
  }

  /** Every state reachable from a new root, through crashes, retries and foreign writes, satisfies the relation. */
  lemma ReachableStatesAgree(env: Environment, start: Disk, ops: seq<Op>)
    requires Initial(env, start)
    ensures Inv(env, ExecuteAll(env, start, ops))
  {
    InitialInv(env, start);
    RunsKeepInv(env, start, ops);
  }

  /**
   The relation spelled out: the ledger's fold succeeds; at most one journal is nonterminal; with
   none, the active attempt is the pointer's when that is open or sealed and nobody otherwise;
   with one, its phase admits exactly its own before and after pair.
   */
  lemma PointerFollowsLedger(env: Environment, start: Disk, ops: seq<Op>)
    requires Initial(env, start)
    ensures var d := ExecuteAll(env, start, ops);
            && Fold(d.ledger).Some? && JournalsSound(d.journals)
            && (forall k, l | k in PendingKeys(d.journals) && l in PendingKeys(d.journals) :: k == l)
            && (PendingKeys(d.journals) == {} ==>
                  Active(d.ledger) ==
                  if d.pointer.Some? && d.pointer.value.status in {Open, Sealed} then Some(d.pointer.value.attempt)
                    else None)
            && (forall k | k in PendingKeys(d.journals) :: Tied(d, Active(d.ledger), d.journals[k]))
  {
    hide ExecuteAll, Tied, ChainOk;
    ReachableStatesAgree(env, start, ops);
  }

  /** In every reachable state the lifecycle's and the writer's own readings of the root agree. */
  lemma ValidatorsAgree(env: Environment, start: Disk, ops: seq<Op>)
    requires Initial(env, start)
    ensures var d := ExecuteAll(env, start, ops);
            && Candidate(d.journals).Success? && PendingJournal(d.journals) == Candidate(d.journals)
            && (forall k | k in d.journals :: TrustedJournal(d.journals[k]))
            && (d.pointer.Some? ==> TrustedPointer(d.pointer.value)) && ReadPointer(d) == Success(d.pointer)
  {
    hide ExecuteAll, ChainOk, Candidate, PendingJournal;
    ReachableStatesAgree(env, start, ops);
    PendingJournalIs(ExecuteAll(env, start, ops).journals);
  }

  // ---- Exactly once

  /**
   Each begin, abandon and reopen journal has at most one ledger entry, exactly one once it is
   committed, and that entry directly follows the tip recorded in the journal's inputs.
   */
  lemma ExactlyOnce(env: Environment, d: Disk, key: JournalKey)
    requires Inv(env, d) && key in d.journals && key.kind != Seal
    ensures var j := d.journals[key];
            && WellShaped(j) && j.kind == key.kind
            && var events := Events(d.ledger, ExpectedEvent(j));
            && |events| <= 1
            && (j.phase != Prepared ==> |events| == 1)
            && (|events| == 1 ==>
                  var i := events[0].sequence;
                  0 < i < |d.ledger| && d.ledger[i] == events[0] && EntryHash(d.ledger[i-1]) == j.inputs.tip)
  {
    var j := d.journals[key];
    AppendedHappened(env, d, key);
    if Happened(d.ledger, ExpectedEvent(j)) {
      var i :| 0 <= i < |d.ledger| && d.ledger[i].event == ExpectedEvent(j);
      BoundEvent(env, d.ledger, j, i);
    } else {
      NoEvents(d.ledger, ExpectedEvent(j));
    }
  }

  /** Past `prepared`, the event is in the ledger. */
  lemma AppendedHappened(env: Environment, d: Disk, key: JournalKey)
    requires Inv(env, d) && key in d.journals && key.kind != Seal
    ensures d.journals[key].kind == key.kind
    ensures d.journals[key].phase != Prepared ==> Happened(d.ledger, ExpectedEvent(d.journals[key]))
  {
    var j := d.journals[key];
    if j.phase != Prepared && j.phase != Committed {
      assert key in PendingKeys(d.journals);
      assert EventPending(d.ledger, j, true);
    }
  }

  lemma BoundEvent(env: Environment, ledger: seq<Entry>, j: Journal, i: nat)
    requires LedgerSound(env, ledger) && i < |ledger|
    requires WellShaped(j) && j.kind != Seal && j.id == Digest(InputsDoc(j.inputs))
    requires ledger[i].event == ExpectedEvent(j)
    ensures Events(ledger, ExpectedEvent(j)) == [ledger[i]]
    ensures 0 < i == ledger[i].sequence && EntryHash(ledger[i-1]) == j.inputs.tip
  {
    OneEvent(env, ledger, i);
    assert EventBound(ledger[i]) && LinkOk(env, ledger, i);
  }

  /** No lifecycle entry is without its journal. */
  lemma EveryEventHasItsJournal(env: Environment, d: Disk, i: nat)
    requires Inv(env, d) && i < |d.ledger| && EventKey(d.ledger[i].event).Some?
    ensures var key := EventKey(d.ledger[i].event).value;
            && key in d.journals && WellShaped(d.journals[key]) && d.journals[key].kind == key.kind
            && ExpectedEvent(d.journals[key]) == d.ledger[i].event
            && Events(d.ledger, d.ledger[i].event) == [d.ledger[i]]
  {
    assert EventBound(d.ledger[i]);
    OneEvent(env, d.ledger, i);
  }

  // ---- Recovery converges

  /** Crashed invocations of one command, one after the other. */
  function Retry(env: Environment, cmd: Command, d: Disk, crashes: seq<nat>): Disk
    decreases |crashes|
  {
    if crashes == [] then d else Retry(env, cmd, Invoke(env, cmd, d, crashes[0]).disk, crashes[1..])
  }

  /** A run stopped after `m` writes is completed by a run with the writes that were left. */
  lemma {:induction false} RunSplits(env: Environment, cmd: Command, d: Disk, m: nat, n: nat)
    requires m <= n && Run(env, cmd, d, m).outcome.Interrupted?
    ensures Run(env, cmd, d, n) == Run(env, cmd, Run(env, cmd, d, m).disk, n - m)
    decreases m
  {
    hide Step;
    if m > 0 { RunSplits(env, cmd, Step(env, cmd, d).next, m - 1, n - 1); }
  }

  /** A larger budget changes nothing for a run that was not stopped. */
  lemma {:induction false} RunExtends(env: Environment, cmd: Command, d: Disk, m: nat, n: nat)
    requires m <= n && !Run(env, cmd, d, m).outcome.Interrupted?
    ensures Run(env, cmd, d, n) == Run(env, cmd, d, m)
    decreases m
  {
    hide Step;
    if Step(env, cmd, d).Write? { RunExtends(env, cmd, Step(env, cmd, d).next, m - 1, n - 1); }
  }

  function CommittedStatus(kind: Kind): Status {
    match kind
    case Begin => Open
    case Abandon => Abandoned
    case Seal => Sealed
    case Reopen => Reopened
  }

  /** Once a transition is committed, its own command refuses to start it again. */
  lemma CommittedRefuses(env: Environment, cmd: Command, d: Disk, next: Disk, p: Pointer)
    requires Inv(env, d) && Step(env, cmd, d) == Commit(next, p)
    ensures Inv(env, next) && Step(env, cmd, next).Refuse?
  {
    hide Prepare, RefusalOf, WriteOf, Inv;
    StepKeepsInv(env, cmd, d);
    var key := Candidate(d.journals).value.value;
    CommitFacts(env, cmd, d, d.journals[key], key, next, p);
    NoRestart(env, cmd, next, p);
  }

  lemma NoRestart(env: Environment, cmd: Command, d: Disk, p: Pointer)
    requires JournalsSound(d.journals) && PendingKeys(d.journals) == {}
    requires d.pointer == Some(p) && p.status == CommittedStatus(CommandKind(cmd))
    ensures Step(env, cmd, d).Refuse?
  {
    CandidateIsNone(d.journals);
  }

  /** What the last write of a transition leaves: no pending journal, and the status it stands for. */
  lemma CommitFacts(env: Environment, cmd: Command, d: Disk, j: Journal, key: JournalKey, next: Disk, p: Pointer)
    requires Inv(env, d) && key in d.journals && d.journals[key] == j && PendingKeys(d.journals) == {key}
    requires WellShaped(j) && j.kind == CommandKind(cmd)
    requires Resume(env, cmd, d, j, key) == Commit(next, p)
    ensures next.pointer == Some(p) && p.status == CommittedStatus(CommandKind(cmd))
    ensures JournalsSound(next.journals) && PendingKeys(next.journals) == {}
  {
    hide RefusalOf;
    assert KeyOf(j) == key;
    PendingPhase(d, j);
    WriteJournals(d.journals, j.(phase := Committed));
    CommitOf(env, d, j, next, p);
  }

  lemma CommitOf(env: Environment, d: Disk, j: Journal, next: Disk, p: Pointer)
    requires WellShaped(j) && (j.kind != Begin ==> AttemptInHand(d, j))
    requires WriteOf(env, d, j) == Commit(next, p)
    ensures next == Advance(d, j, Committed)
    ensures next.pointer == Some(p) && p.status == CommittedStatus(j.kind)
  {
    hide Append, InventoryOf;
  }

  lemma {:induction false} CompletedRefuses(env: Environment, cmd: Command, d: Disk, n: nat, final: Disk, p: Pointer)
    requires Inv(env, d) && Run(env, cmd, d, n) == RunResult(final, Completed(p))
    ensures Inv(env, final) && Step(env, cmd, final).Refuse?
    decreases n
  {
    hide Prepare, RefusalOf, WriteOf, Inv;
    var r := Step(env, cmd, d);
    if r.Commit? {
      CommittedRefuses(env, cmd, d, r.next, r.result);
    } else {
      StepKeepsInv(env, cmd, d);
      CompletedRefuses(env, cmd, r.next, n - 1, final, p);
    }
  }

  /**
   From every state reached by stopping a command at any durable write, any number of times,
   rerunning it ends exactly where the uninterrupted run does. If one of the stopped runs had
   already made the last write, the disk is final, and the rerun refuses and changes nothing.
   */
  lemma {:induction false} RecoveryConverges(env: Environment, cmd: Command, d: Disk, crashes: seq<nat>, n: nat,
      final: Disk, p: Pointer)
    requires Inv(env, d)
    requires Invoke(env, cmd, d, n) == RunResult(final, Completed(p))
    ensures var e := Retry(env, cmd, d, crashes);
            var again := Invoke(env, cmd, e, n);
            || again == RunResult(final, Completed(p))
            || (e == final && again.disk == final && again.outcome.Refused?)
    decreases |crashes|
  {
    hide Step, Inv, Invoke;
    ValidatedOnce(env, cmd, d, n);
    if crashes != [] {
      var m := crashes[0];
      ValidatedOnce(env, cmd, d, m);
      var e := Run(env, cmd, d, m);
      RunKeepsInv(env, cmd, d, m);
      ValidatedOnce(env, cmd, e.disk, n);
      if e.outcome.Interrupted? {
        if n < m { RunExtends(env, cmd, d, n, m); }
        RunSplits(env, cmd, d, m, n);
        RunExtends(env, cmd, e.disk, n - m, n);
        RecoveryConverges(env, cmd, e.disk, crashes[1..], n, final, p);
      } else {
        if m <= n { RunExtends(env, cmd, d, m, n); } else { RunExtends(env, cmd, d, n, m); }
        CompletedRefuses(env, cmd, d, n, final, p);
        RefusedForever(env, cmd, final, crashes[1..], n);
      }
    }
  }

  lemma {:induction false} RefusedForever(env: Environment, cmd: Command, d: Disk, crashes: seq<nat>, n: nat)
    requires Inv(env, d) && Step(env, cmd, d).Refuse?
    ensures Retry(env, cmd, d, crashes) == d
    ensures Invoke(env, cmd, d, n).disk == d && Invoke(env, cmd, d, n).outcome.Refused?
    decreases |crashes|
  {
    ValidatedOnce(env, cmd, d, n);
    if crashes != [] {
      ValidatedOnce(env, cmd, d, crashes[0]);
      RefusedForever(env, cmd, d, crashes[1..], n);
    }
  }

  // ---- Nothing else can move while a transition is pending

  /** At most one command can proceed on a disk with a pending journal. */
  lemma OnlyOneCommandProceeds(env: Environment, cmd: Command, other: Command, d: Disk)
    requires PendingKeys(d.journals) != {}
    requires !Step(env, cmd, d).Refuse? && !Step(env, other, d).Refuse?
    ensures cmd == other
  {
    hide WriteOf, Prepare, ChainOk, EventsRefusal, InventoryOf, Attest;
    var key := Candidate(d.journals).value.value;
    var j := d.journals[key];
    assert RefusalOf(env, cmd, d, j, key).None? && RefusalOf(env, other, d, j, key).None?;
  }

  /** Until its last write, a resumed transition stays pending. */
  lemma {:induction false} PendingPersists(env: Environment, cmd: Command, d: Disk, m: nat)
    requires Inv(env, d) && PendingKeys(d.journals) != {} && Run(env, cmd, d, m).outcome.Interrupted?
    ensures PendingKeys(Run(env, cmd, d, m).disk.journals) != {}
    decreases m
  {
    hide Step, Inv, PendingKeys;
    if m > 0 {
      var r := Step(env, cmd, d);
      StepKeepsInv(env, cmd, d);
      StepStaysPending(env, cmd, d);
      PendingPersists(env, cmd, r.next, m - 1);
    }
  }

  lemma StepStaysPending(env: Environment, cmd: Command, d: Disk)
    requires Inv(env, d) && PendingKeys(d.journals) != {} && Step(env, cmd, d).Write?
    ensures PendingKeys(Step(env, cmd, d).next.journals) != {}
  {
    hide RefusalOf, WriteOf;
    var key := Candidate(d.journals).value.value;
    WriteStaysValid(env, cmd, d, d.journals[key]);
  }

  lemma PendingAppendRefused(env: Environment, d: Disk, op: Op)
    requires Inv(env, d) && PendingKeys(d.journals) != {} && op.OrdinaryAppend?
    ensures Execute(env, d, op) == d
  {
    OrdinaryAppendAdmitted(env, d, op.task, op.action, op.arguments, op.status, op.expected);
  }

  /**
   A pending transition that would complete still does, whatever else is attempted meanwhile:
   any commands, crashed or not, and any ordinary appends, in any order. They leave the disk on
   the transition's own path until it is final.
   */
  lemma {:induction false} RecoveryUnderInterference(env: Environment, cmd: Command, d: Disk, ops: seq<Op>, n: nat,
      final: Disk, p: Pointer)
    requires Inv(env, d) && PendingKeys(d.journals) != {}
    requires Invoke(env, cmd, d, n) == RunResult(final, Completed(p))
    requires forall op | op in ops :: !op.EvidenceChange?
    ensures || Invoke(env, cmd, ExecuteAll(env, d, ops), n) == RunResult(final, Completed(p))
            || exists i :: 0 <= i <= |ops| && ExecuteAll(env, d, ops[..i]) == final
    decreases |ops|
  {
    hide Step, Inv, Append, Invoke, Execute, PendingKeys;
    if ops != [] {
      var e := Execute(env, d, ops[0]);
      InterferenceStep(env, cmd, d, ops[0], n, final, p);
      if e == final {
        assert ExecuteAll(env, d, ops[..1]) == ExecuteAll(env, e, ops[..1][1..]);
        assert ops[..1][1..] == [];
      } else {
        RecoveryUnderInterference(env, cmd, e, ops[1..], n, final, p);
        if i :| 0 <= i <= |ops[1..]| && ExecuteAll(env, e, ops[1..][..i]) == final {
          assert ops[..i+1][1..] == ops[1..][..i];
          assert ExecuteAll(env, d, ops[..i+1]) == final;
        }
      }
    }
  }

  lemma InterferenceStep(env: Environment, cmd: Command, d: Disk, op: Op, n: nat, final: Disk, p: Pointer)
    requires Inv(env, d) && PendingKeys(d.journals) != {} && !op.EvidenceChange?
    requires Invoke(env, cmd, d, n) == RunResult(final, Completed(p))
    ensures var e := Execute(env, d, op);
            e == final || (Inv(env, e) && PendingKeys(e.journals) != {}
              && Invoke(env, cmd, e, n) == RunResult(final, Completed(p)))
  {
    hide Step, Inv, Append;
    if op.OrdinaryAppend? {
      PendingAppendRefused(env, d, op);
    } else {
      var m := op.budget;
      ValidatedOnce(env, cmd, d, n);
      ValidatedOnce(env, op.cmd, d, m);
      if op.cmd != cmd {
        if !Step(env, op.cmd, d).Refuse? { OnlyOneCommandProceeds(env, cmd, op.cmd, d); }
      } else {
        var e := Run(env, cmd, d, m);
        RunKeepsInv(env, cmd, d, m);
        if e.outcome.Interrupted? {
          PendingPersists(env, cmd, d, m);
          if n < m { RunExtends(env, cmd, d, n, m); }
          RunSplits(env, cmd, d, m, n);
          RunExtends(env, cmd, e.disk, n - m, n);
          ValidatedOnce(env, cmd, e.disk, n);
        } else {
          if m <= n { RunExtends(env, cmd, d, m, n); } else { RunExtends(env, cmd, d, n, m); }
        }
      }
    }
  }
}
