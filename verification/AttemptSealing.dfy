/**
 What sealing freezes. From the write that prepares a seal journal, the next entry that the
 ledger can ever receive is the reopen of that seal; and until that entry the seal validates,
 whatever commands and appends are attempted, as long as the sealed evidence is untouched.
 */
module AttemptSealing {
  import opened Wrappers
  import opened AttemptModel
  import opened OperationsLedger
  import opened AttemptTransitions
  import opened AttemptInvariant
  import opened AttemptSafety
  import opened AttemptSteps
  import opened AttemptRecovery
  import opened AttemptRuns
  import opened AttemptTheorems
  import opened AttemptEffects

  // ---- The ledger between a seal and its reopen

  /** A seal is under way. */
  predicate SealPending(d: Disk) {
    exists k | k in PendingKeys(d.journals) :: k.kind == Seal
  }

  /** A seal stands, and its reopen, if one is pending, has not reached the ledger. */
  predicate SealStands(d: Disk) {
    && d.pointer.Some? && d.pointer.value.status == Sealed
    && Active(d.ledger) == Some(d.pointer.value.attempt)
    && forall k | k in PendingKeys(d.journals) :: k.kind == Reopen
  }

  predicate LedgerHeld(d: Disk) { SealPending(d) || SealStands(d) }

  /** The first entry written on top of `d` reopens the seal. */
  predicate Reopens(d: Disk, next: Disk) {
    d.ledger < next.ledger && next.ledger[|d.ledger|].event.SealReopened?
  }

  /** A standing seal: at most a reopen journal is written before the reopen entry. */
  predicate SealUntouched(d: Disk, next: Disk) {
    next == d.(journals := next.journals) && SealStands(next)
  }

  lemma PendingTied(env: Environment, d: Disk, j: Journal)
    requires Inv(env, d) && IsPending(d, j)
    ensures Tied(d, Active(d.ledger), j) && JournalsSound(d.journals) && j.id == Digest(InputsDoc(j.inputs))
      && d.ledger != []
  {
    assert KeyOf(j) in PendingKeys(d.journals);
  }

  lemma MovedJournals(journals: map<JournalKey, Journal>, j: Journal, phase: Phase)
    requires JournalsSound(journals) && KeyOf(j) in journals && journals[KeyOf(j)] == j
    requires PendingKeys(journals) <= {KeyOf(j)} && phase in PhasesOf(j.kind)
    ensures PendingKeys(journals[KeyOf(j) := j.(phase := phase)]) == if phase == Committed then {} else {KeyOf(j)}
  {
    hide TrustedJournal, PresealListed;
    PhaseKeepsTrust(j, phase);
    WriteJournals(journals, j.(phase := phase));
  }

  lemma SealWriteHeld(env: Environment, d: Disk, j: Journal)
    requires IsPending(d, j) && j.kind == Seal && AttemptInHand(d, j)
    requires JournalsSound(d.journals) && Tied(d, Active(d.ledger), j)
    ensures SealWrite(d, j).Write? ==> SealWrite(d, j).next.ledger == d.ledger && SealPending(SealWrite(d, j).next)
    ensures SealWrite(d, j).Commit? ==> SealWrite(d, j).next.ledger == d.ledger && SealStands(SealWrite(d, j).next)
  {
    hide JournalsSound, TrustedJournal, PresealListed, LedgerSealedBy;
    assert KeyOf(j) in PendingKeys(d.journals);
    MovedJournals(d.journals, j, SealWritten);
    MovedJournals(d.journals, j, PointerSealed);
    MovedJournals(d.journals, j, Committed);
    var r := SealWrite(d, j);
    if r.Write? { assert KeyOf(j) in PendingKeys(r.next.journals); }
  }

  lemma ReopenWriteHeld(env: Environment, d: Disk, j: Journal)
    requires IsPending(d, j) && j.kind == Reopen && AttemptInHand(d, j) && SealStands(d) && d.ledger != []
    requires JournalsSound(d.journals) && Tied(d, Active(d.ledger), j)
    ensures var r := TerminalWrite(env, d, j);
            && !r.Commit?
            && (r.Write? ==>
                  && r.next == d.(ledger := r.next.ledger)
                  && d.ledger < r.next.ledger && r.next.ledger[|d.ledger|].event.SealReopened?)
  {
    PendingPhase(d, j);
    if Events(d.ledger, ExpectedEvent(j)) == [] {
      AppendIsEvent(env, d, j);
    } else {
      EventFound(d, j);
    }
  }

  lemma AppendIsEvent(env: Environment, d: Disk, j: Journal)
    requires WellShaped(j) && j.kind == Reopen && d.ledger != []
    ensures var r := AppendEvent(env, d, j);
            r.Write? ==> r.next == d.(ledger := d.ledger + [EventEntry(env, d.ledger, j)])
  {
  }

  /** One write of any command while a seal is pending. */
  lemma SealPendingStep(env: Environment, cmd: Command, d: Disk)
    requires Inv(env, d) && SealPending(d)
    ensures var r := Step(env, cmd, d);
            && (r.Write? ==> r.next.ledger == d.ledger && SealPending(r.next))
            && (r.Commit? ==> r.next.ledger == d.ledger && SealStands(r.next))
  {
    hide RefusalOf, WriteOf, Prepare, Inv, SealStands;
    var key :| key in PendingKeys(d.journals) && key.kind == Seal;
    assert Inv(env, d) ==> AtMostOnePending(d.journals) && JournalsSound(d.journals) by { InvJournals(env, d); }
    PendingIs(d.journals, key);
    CandidateIs(d.journals, key);
    var j := d.journals[key];
    if j.kind == CommandKind(cmd) && RefusalOf(env, cmd, d, j, key).None? {
      PendingTied(env, d, j);
      SealWriteHeld(env, d, j);
      assert WriteOf(env, d, j) == SealWrite(d, j) by { WriteOfSeal(env, d, j); }
    }
  }

  lemma InvJournals(env: Environment, d: Disk)
    requires Inv(env, d)
    ensures AtMostOnePending(d.journals) && JournalsSound(d.journals)
  {
  }

  lemma WriteOfSeal(env: Environment, d: Disk, j: Journal)
    requires WellShaped(j) && j.kind == Seal && AttemptInHand(d, j)
    ensures WriteOf(env, d, j) == SealWrite(d, j)
  {
  }

  /** One write of any command while a seal stands. */
  lemma SealStandsStep(env: Environment, cmd: Command, d: Disk)
    requires Inv(env, d) && SealStands(d)
    ensures var r := Step(env, cmd, d);
            !r.Commit? && (r.Write? ==> Reopens(d, r.next) || SealUntouched(d, r.next))
  {
    hide RefusalOf, WriteOf, Prepare, Inv;
    InvJournals(env, d);
    if PendingKeys(d.journals) == {} {
      CandidateIsNone(d.journals);
      if Prepare(env, cmd, d).Success? { PrepareHeld(env, cmd, d); }
    } else {
      var key :| key in PendingKeys(d.journals);
      PendingIs(d.journals, key);
      CandidateIs(d.journals, key);
      var j := d.journals[key];
      if j.kind == CommandKind(cmd) && RefusalOf(env, cmd, d, j, key).None? {
        PendingTied(env, d, j);
        ReopenWriteHeld(env, d, j);
        WriteOfReopen(env, d, j);
      }
    }
  }

  lemma WriteOfReopen(env: Environment, d: Disk, j: Journal)
    requires WellShaped(j) && j.kind == Reopen && AttemptInHand(d, j)
    ensures WriteOf(env, d, j) == TerminalWrite(env, d, j)
  {
  }

  lemma PrepareHeld(env: Environment, cmd: Command, d: Disk)
    requires Inv(env, d) && SealStands(d) && PendingKeys(d.journals) == {} && Prepare(env, cmd, d).Success?
    ensures SealStands(PutJournal(d, Prepare(env, cmd, d).value))
  {
    var j := Prepare(env, cmd, d).value;
    assert j.kind == Reopen;
    PrepareTies(env, cmd, d);
    WriteJournals(d.journals, j);
  }

  // ---- Whole runs

  lemma StepGrows(env: Environment, cmd: Command, d: Disk)
    ensures var r := Step(env, cmd, d);
            (r.Write? ==> d.ledger <= r.next.ledger) && (r.Commit? ==> d.ledger <= r.next.ledger)
  {
    hide RefusalOf, Prepare, WriteOf;
    var c := Candidate(d.journals);
    if c.Success? && c.value.Some? {
      var j := d.journals[c.value.value];
      if WellShaped(j) && (j.kind != Begin ==> AttemptInHand(d, j)) { WriteGrows(env, d, j); }
    }
  }

  lemma WriteGrows(env: Environment, d: Disk, j: Journal)
    requires WellShaped(j) && (j.kind != Begin ==> AttemptInHand(d, j))
    ensures var r := WriteOf(env, d, j);
            (r.Write? ==> d.ledger <= r.next.ledger) && (r.Commit? ==> d.ledger <= r.next.ledger)
  {
    hide Append, InventoryOf, MarkerExact, ExpectedEvent;
  }

  lemma {:induction false} RunGrows(env: Environment, cmd: Command, d: Disk, budget: nat)
    ensures d.ledger <= Run(env, cmd, d, budget).disk.ledger
    decreases budget
  {
    hide Step;
    StepGrows(env, cmd, d);
    if Step(env, cmd, d).Write? && budget > 0 { RunGrows(env, cmd, Step(env, cmd, d).next, budget - 1); }
  }

  lemma ExecuteGrows(env: Environment, d: Disk, op: Op)
    requires Inv(env, d)
    ensures d.ledger <= Execute(env, d, op).ledger
  {
    hide Step, Invoke, Inv;
    if op.Invocation? {
      ValidatedOnce(env, op.cmd, d, op.budget);
      RunGrows(env, op.cmd, d, op.budget);
    }
  }

  lemma {:induction false} RunWhileSealPending(env: Environment, cmd: Command, d: Disk, budget: nat)
    requires Inv(env, d) && SealPending(d)
    ensures var e := Run(env, cmd, d, budget).disk; e.ledger == d.ledger && LedgerHeld(e)
    decreases budget
  {
    hide Step, Inv;
    SealPendingStep(env, cmd, d);
    StepKeepsInv(env, cmd, d);
    if Step(env, cmd, d).Write? && budget > 0 { RunWhileSealPending(env, cmd, Step(env, cmd, d).next, budget - 1); }
  }

  lemma {:induction false} RunWhileSealStands(env: Environment, cmd: Command, d: Disk, budget: nat)
    requires Inv(env, d) && SealStands(d)
    ensures var e := Run(env, cmd, d, budget).disk; SealUntouched(d, e) || Reopens(d, e)
    decreases budget
  {
    hide Step, Inv;
    SealStandsStep(env, cmd, d);
    StepKeepsInv(env, cmd, d);
    if Step(env, cmd, d).Write? && budget > 0 {
      var next := Step(env, cmd, d).next;
      if Reopens(d, next) {
        RunGrows(env, cmd, next, budget - 1);
      } else {
        RunWhileSealStands(env, cmd, next, budget - 1);
      }
    }
  }

  lemma AppendRefusedWhileHeld(env: Environment, d: Disk, op: Op)
    requires Inv(env, d) && LedgerHeld(d) && op.OrdinaryAppend?
    ensures Execute(env, d, op) == d
  {
    OrdinaryAppendAdmitted(env, d, op.task, op.action, op.arguments, op.status, op.expected);
  }

  lemma ExecuteHeld(env: Environment, d: Disk, op: Op)
    requires Inv(env, d) && LedgerHeld(d)
    ensures var e := Execute(env, d, op); (e.ledger == d.ledger && LedgerHeld(e)) || Reopens(d, e)
  {
    hide Step, Inv, Invoke, Append;
    match op
    case Invocation(cmd, budget) =>
      ValidatedOnce(env, cmd, d, budget);
      if SealPending(d) { RunWhileSealPending(env, cmd, d, budget); } else { RunWhileSealStands(env, cmd, d, budget); }
    case OrdinaryAppend(_, _, _, _, _) => AppendRefusedWhileHeld(env, d, op);
    case EvidenceChange(attempts, captures) =>
      var e := Execute(env, d, op);
      assert PendingKeys(e.journals) == PendingKeys(d.journals);
  }

  /**
   From the write that prepares a seal, over any run, the ledger is unchanged or the first entry
   added to it is the reopen of a seal.
   */
  lemma {:induction false} SealFreezesLedger(env: Environment, d: Disk, ops: seq<Op>)
    requires Inv(env, d) && LedgerHeld(d)
    ensures ExecuteAll(env, d, ops).ledger == d.ledger || Reopens(d, ExecuteAll(env, d, ops))
    decreases |ops|
  {
    hide Inv, Execute, LedgerHeld;
    if ops != [] {
      var e := Execute(env, d, ops[0]);
      ExecuteKeepsInv(env, d, ops[0]);
      ExecuteHeld(env, d, ops[0]);
      if Reopens(d, e) { RunsGrow(env, e, ops[1..]); } else { SealFreezesLedger(env, e, ops[1..]); }
    }
  }

  lemma {:induction false} RunsGrow(env: Environment, d: Disk, ops: seq<Op>)
    requires Inv(env, d)
    ensures d.ledger <= ExecuteAll(env, d, ops).ledger
    decreases |ops|
  {
    hide Inv, Execute;
    if ops != [] {
      ExecuteKeepsInv(env, d, ops[0]);
      ExecuteGrows(env, d, ops[0]);
      RunsGrow(env, Execute(env, d, ops[0]), ops[1..]);
    }
  }

  // ---- The seal keeps validating

  /** The sealed evidence of an attempt is as it was; only post-seal review outputs may differ. */
  predicate EvidenceIntact(d: Disk, attempts: map<Digest, Files>, captures: Captures, attempt: Digest)
    requires attempt in d.attempts && SEAL in d.attempts[attempt]
  {
    && captures == d.captures
    && attempt in attempts
    && Flat(attempts[attempt])
    && SEAL in attempts[attempt] && attempts[attempt][SEAL] == d.attempts[attempt][SEAL]
    && Without(attempts[attempt], {SEAL} + POSTSEAL) == Without(d.attempts[attempt], {SEAL} + POSTSEAL)
  }

  lemma WithoutDecides(f: Files, g: Files, names: set<string>, more: set<string>)
    requires Without(f, names) == Without(g, names) && names <= more
    ensures InventoryOf(f, names) == InventoryOf(g, names) && Without(f, more) == Without(g, more)
  {
    forall p | p !in names
      ensures (p in f <==> p in g) && (p in f ==> f[p] == g[p])
    {
      assert p in f <==> p in Without(f, names);
      assert p in g <==> p in Without(g, names);
    }
    assert InventoryOf(f, names).files == InventoryOf(g, names).files;
  }

  lemma ValidateReadsEvidence(env: Environment, d: Disk, e: Disk, attempt: Digest, head: string, plan: string,
      round: string)
    requires attempt in d.attempts && SEAL in d.attempts[attempt] && Flat(d.attempts[attempt])
    requires e.ledger == d.ledger && e.pointer == d.pointer && EvidenceIntact(d, e.attempts, e.captures, attempt)
    ensures ValidateSeal(env, e, Path(attempt, SEAL), head, attempt, plan, round)
         == ValidateSeal(env, d, Path(attempt, SEAL), head, attempt, plan, round)
  {
    hide InventoryOf, ChainOk, SealInputsOf;
    WithoutDecides(e.attempts[attempt], d.attempts[attempt], {SEAL} + POSTSEAL, CONTROL + POSTSEAL);
  }

  /** Over any run that leaves the sealed evidence alone, the verdict on the seal is the same until the reopen entry. */
  lemma {:induction false} SealKeepsVerdict(env: Environment, d: Disk, ops: seq<Op>, attempt: Digest, head: string,
      plan: string, round: string)
    requires Inv(env, d) && SealStands(d)
    requires attempt in d.attempts && SEAL in d.attempts[attempt] && Flat(d.attempts[attempt])
    requires forall op | op in ops && op.EvidenceChange? :: EvidenceIntact(d, op.attempts, op.captures, attempt)
    ensures var e := ExecuteAll(env, d, ops);
            || Reopens(d, e)
            || ValidateSeal(env, e, Path(attempt, SEAL), head, attempt, plan, round)
               == ValidateSeal(env, d, Path(attempt, SEAL), head, attempt, plan, round)
    decreases |ops|
  {
    hide Inv, Execute, ValidateSeal, Without, InventoryOf, SealStands;
    if ops != [] {
      var e := Execute(env, d, ops[0]);
      ExecuteKeepsInv(env, d, ops[0]);
      ExecuteStands(env, d, ops[0], attempt);
      if Reopens(d, e) {
        RunsGrow(env, e, ops[1..]);
      } else {
        ValidateReadsEvidence(env, d, e, attempt, head, plan, round);
        assert forall op | op in ops[1..] :: op in ops;
        SealKeepsVerdict(env, e, ops[1..], attempt, head, plan, round);
      }
    }
  }

  lemma ExecuteStands(env: Environment, d: Disk, op: Op, attempt: Digest)
    requires Inv(env, d) && SealStands(d)
    requires attempt in d.attempts && SEAL in d.attempts[attempt] && Flat(d.attempts[attempt])
    requires op.EvidenceChange? ==> EvidenceIntact(d, op.attempts, op.captures, attempt)
    ensures var e := Execute(env, d, op);
            || Reopens(d, e)
            || (e.ledger == d.ledger && e.pointer == d.pointer && SealStands(e)
              && EvidenceIntact(d, e.attempts, e.captures, attempt))
  {
    hide Step, Inv, Invoke, Append, Without;
    match op
    case Invocation(cmd, budget) =>
      ValidatedOnce(env, cmd, d, budget);
      RunWhileSealStands(env, cmd, d, budget);
    case OrdinaryAppend(_, _, _, _, _) => AppendRefusedWhileHeld(env, d, op);
    case EvidenceChange(attempts, captures) =>
      var e := Execute(env, d, op);
      assert PendingKeys(e.journals) == PendingKeys(d.journals);
  }

  /** A seal that completes validates at once, and the seal stands. */
  lemma SealValidates(env: Environment, cmd: Command, d: Disk)
    requires Inv(env, d) && PendingKeys(d.journals) == {}
    requires cmd.SealCommand? && env.contract.plan == cmd.plan && env.contract.round == cmd.round
    requires PrepareSeal(env, cmd, d).Success?
    ensures var j := PrepareSeal(env, cmd, d).value;
            && AttemptInHand(d, j)
            && var sealed := SealedDisk(d, j);
            && SealStands(sealed)
            && ValidateSeal(env, sealed, Path(j.inputs.attempt, SEAL), cmd.head, j.inputs.attempt, cmd.plan, cmd.round)
              == Success(SealOf(j))
  {
    hide Inv, ChainOk, InventoryOf, SealStands, ValidateSeal, SealedDisk, PrepareSeal;
    var j := PrepareSeal(env, cmd, d).value;
    SealPrepared(env, cmd, d);
    SealedStands(env, cmd, d, j);
    SealedValidates(env, cmd, d, j);
  }

  lemma SealedValidates(env: Environment, cmd: Command, d: Disk, j: Journal)
    requires cmd.SealCommand? && env.contract.plan == cmd.plan && env.contract.round == cmd.round
    requires PrepareSeal(env, cmd, d) == Success(j) && AttemptInHand(d, j)
    ensures ValidateSeal(env, SealedDisk(d, j), Path(j.inputs.attempt, SEAL), cmd.head, j.inputs.attempt, cmd.plan,
      cmd.round) == Success(SealOf(j))
  {
    hide ChainOk, InventoryOf, Without, PresealFilesOk, Flat, PresealEvidence;
    SealedInventory(d.attempts[j.inputs.attempt], SealFile(SealOf(j)));
  }

  lemma SealedStands(env: Environment, cmd: Command, d: Disk, j: Journal)
    requires Inv(env, d) && PendingKeys(d.journals) == {}
    requires cmd.SealCommand? && PrepareSeal(env, cmd, d) == Success(j) && AttemptInHand(d, j)
    ensures SealStands(SealedDisk(d, j))
  {
    hide ChainOk, PresealFilesOk, PresealEvidence, TrustedJournal, PresealListed;
    PrepareTies(env, cmd, d);
    assert TrustedJournal(j.(phase := Committed)) by { PhaseKeepsTrust(j, Committed); }
    WriteJournals(d.journals, j.(phase := Committed));
  }

  /** Pre-seal files, and nothing else, are inventoried around the seal. */
  lemma SealedInventory(files: Files, seal: Content)
    requires PresealFilesOk(files)
    ensures InventoryOf(files[SEAL := seal], {SEAL} + POSTSEAL) == InventoryOf(files, {})
    ensures PresealEvidence(files[SEAL := seal]) == PresealEvidence(files) && Flat(files[SEAL := seal])
  {
    hide IsChildReceipt;
    PresealNames(files);
    assert InventoryOf(files[SEAL := seal], {SEAL} + POSTSEAL).files == InventoryOf(files, {}).files;
    assert '/' !in SEAL;
  }
}
