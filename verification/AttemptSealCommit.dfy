/**
 Validation from the commit of a seal on, however often the seal was stopped and resumed. The
 resumed code hashes the seal file that it finds without comparing it with the one it wrote, so
 the committed seal validates exactly when that file was left alone.
 */
module AttemptSealCommit {
  import opened Wrappers
  import opened AttemptModel
  import opened OperationsLedger
  import opened AttemptTransitions
  import opened AttemptInvariant
  import opened AttemptSafety
  import opened AttemptSteps
  import opened AttemptRecovery
  import opened AttemptRuns
  import opened AttemptTheorems
  import opened AttemptEffects
  import opened AttemptSealing

  /** The verdict of `validate_seal` on an attempt's own seal file, for the identities of `cmd`. */
  function Verdict(env: Environment, d: Disk, cmd: Command, attempt: Digest): Result<SealRecord, Refusal>
    requires cmd.SealCommand?
  {
    ValidateSeal(env, d, Path(attempt, SEAL), cmd.head, attempt, cmd.plan, cmd.round)
  }

  /** What a seal's journal and recovery checks establish about a disk that carries the sealed pointer. */
  predicate SealInPlace(env: Environment, cmd: Command, d: Disk, j: Journal)
    requires WellShaped(j) && j.kind == Seal && cmd.SealCommand?
  {
    && env.contract.plan == cmd.plan && env.contract.round == cmd.round && PlanMatches(j.inputs, cmd)
    && TrustedJournal(j) && PresealListed(j) && j.id == Digest(InputsDoc(j.inputs))
    && ChainOk(env, d.ledger) && LedgerSealedBy(d.ledger, j)
    && AttemptInHand(d, j) && SEAL in d.attempts[j.inputs.attempt]
    && SealRefusal(env, cmd, d, j, KeyOf(j)).None?
    && d.pointer.value.status == Sealed && d.pointer.value.head == cmd.head
    && d.pointer.value.sealId == Some(j.id)
    && d.pointer.value.sealSha == Some(Digest(ContentDoc(d.attempts[j.inputs.attempt][SEAL])))
  }

  lemma NoPostsealFiles(files: Files, j: Journal)
    requires WellShaped(j) && j.kind == Seal && PresealListed(j) && InventoryOf(files, {SEAL}) == j.payload.inventory
    ensures InventoryOf(files, {SEAL} + POSTSEAL) == j.payload.inventory
  {
    forall p | p in files && p !in {SEAL} ensures p !in POSTSEAL {
      assert p in InventoryOf(files, {SEAL}).files;
    }
    assert InventoryOf(files, {SEAL} + POSTSEAL).files == InventoryOf(files, {SEAL}).files;
  }

  /** With everything in place the verdict depends on the seal file alone. */
  lemma VerdictExactly(env: Environment, cmd: Command, d: Disk, j: Journal)
    requires WellShaped(j) && j.kind == Seal && cmd.SealCommand? && SealInPlace(env, cmd, d, j)
    ensures var verdict := Verdict(env, d, cmd, j.inputs.attempt);
            && (verdict.Success? <==> d.attempts[j.inputs.attempt][SEAL] == SealFile(SealOf(j)))
            && (verdict.Success? ==> verdict.value == SealOf(j))
  {
    hide ChainOk, InventoryOf, PresealEvidence, Flat;
    NoPostsealFiles(d.attempts[j.inputs.attempt], j);
  }

  // ---- At the commit

  /** The journal that a seal's last write commits. */
  lemma SealCommits(env: Environment, cmd: Command, d: Disk, next: Disk, p: Pointer) returns (j: Journal)
    requires Inv(env, d) && cmd.SealCommand? && Step(env, cmd, d) == Commit(next, p)
    ensures IsPending(d, j) && j.kind == Seal && PlanMatches(j.inputs, cmd)
    ensures env.contract.plan == cmd.plan && env.contract.round == cmd.round
    ensures SealRefusal(env, cmd, d, j, KeyOf(j)).None? && SealWrite(d, j) == Commit(next, p)
  {
    hide SealRefusal, PrepareSeal, SealWrite;
    var candidate := Candidate(d.journals);
    j := d.journals[candidate.value.value];
    InvJournals(env, d);
  }

  lemma CommitWrites(d: Disk, j: Journal, next: Disk, p: Pointer)
    requires WellShaped(j) && j.kind == Seal && AttemptInHand(d, j) && SealWrite(d, j) == Commit(next, p)
    ensures next == Advance(d, j, Committed) && d.pointer == Some(p)
    ensures SEAL in d.attempts[p.attempt] && p.status == Sealed && p.sealId == Some(j.id)
    ensures p.sealSha == Some(Digest(ContentDoc(d.attempts[p.attempt][SEAL])))
  {
  }

  lemma ChecksSkipJournals(env: Environment, cmd: Command, d: Disk, e: Disk, j: Journal)
    requires cmd.SealCommand? && WellShaped(j) && j.kind == Seal && e == d.(journals := e.journals)
    ensures SealRefusal(env, cmd, e, j, KeyOf(j)) == SealRefusal(env, cmd, d, j, KeyOf(j))
  {
    hide InventoryOf, PresealEvidence, Attest, SealInputsOf;
  }

  lemma CommitPutsInPlace(env: Environment, cmd: Command, d: Disk, j: Journal, next: Disk, p: Pointer)
    requires Inv(env, d) && IsPending(d, j) && j.kind == Seal && cmd.SealCommand? && PlanMatches(j.inputs, cmd)
    requires env.contract.plan == cmd.plan && env.contract.round == cmd.round
    requires SealRefusal(env, cmd, d, j, KeyOf(j)).None? && SealWrite(d, j) == Commit(next, p)
    ensures p.attempt == j.inputs.attempt && SealInPlace(env, cmd, next, j)
    ensures SealStands(next) && next.attempts == d.attempts && next.captures == d.captures
  {
    hide ChainOk, SealWrite, SealRefusal, Bound, Fold, EventsJournaled, CommittedHappened, SealStands;
    CommitWrites(d, j, next, p);
    ChecksSkipJournals(env, cmd, d, next, j);
    SealStandsAfter(env, d, j);
    RefusalFields(env, cmd, d, j);
    assert KeyOf(j) in PendingKeys(d.journals);
  }

  lemma SealStandsAfter(env: Environment, d: Disk, j: Journal)
    requires Inv(env, d) && IsPending(d, j) && j.kind == Seal && AttemptInHand(d, j)
    ensures SealWrite(d, j).Commit? ==> SealStands(SealWrite(d, j).next)
  {
    hide Inv, SealStands, SealWrite;
    PendingTied(env, d, j);
    SealWriteHeld(env, d, j);
  }

  lemma RefusalFields(env: Environment, cmd: Command, d: Disk, j: Journal)
    requires cmd.SealCommand? && WellShaped(j) && j.kind == Seal && SealRefusal(env, cmd, d, j, KeyOf(j)).None?
    ensures j.inputs.head == cmd.head && j.id == Digest(InputsDoc(j.inputs))
  {
    hide InventoryOf, PresealEvidence, Attest, SealInputsOf;
  }

  /**
   At the commit of a seal, whatever stops and evidence changes led to it, the seal validates if
   and only if its file is still the one that the transition wrote.
   */
  lemma SealCommitVerdict(env: Environment, cmd: Command, d: Disk, next: Disk, p: Pointer) returns (j: Journal)
    requires Inv(env, d) && cmd.SealCommand? && Step(env, cmd, d) == Commit(next, p)
    ensures IsPending(d, j) && j.kind == Seal && p.attempt == j.inputs.attempt
    ensures p.attempt in next.attempts && SEAL in next.attempts[p.attempt] && Flat(next.attempts[p.attempt])
    ensures SealStands(next)
    ensures var verdict := Verdict(env, next, cmd, p.attempt);
            && (verdict.Success? <==> next.attempts[p.attempt][SEAL] == SealFile(SealOf(j)))
            && (verdict.Success? ==> verdict.value == SealOf(j))
  {
    hide Step, Inv, ValidateSeal, ChainOk, InventoryOf;
    j := SealCommits(env, cmd, d, next, p);
    CommitPutsInPlace(env, cmd, d, j, next, p);
    VerdictExactly(env, cmd, next, j);
  }

  /**
   From that commit on, over any run that leaves the sealed evidence alone, the seal validates
   until its reopen entry if and only if its file was intact at the commit.
   */
  lemma SealValidFromCommit(env: Environment, cmd: Command, d: Disk, next: Disk, p: Pointer, ops: seq<Op>)
    returns (j: Journal)
    requires Inv(env, d) && cmd.SealCommand? && Step(env, cmd, d) == Commit(next, p)
    requires p.attempt in next.attempts && SEAL in next.attempts[p.attempt]
    requires forall op | op in ops && op.EvidenceChange? ::
               EvidenceIntact(next, op.attempts, op.captures, p.attempt)
    ensures IsPending(d, j) && j.kind == Seal
    ensures var e := ExecuteAll(env, next, ops);
            || Reopens(next, e)
            || (Verdict(env, e, cmd, p.attempt).Success?
                <==> next.attempts[p.attempt][SEAL] == SealFile(SealOf(j)))
  {
    hide Step, Inv, ValidateSeal, ExecuteAll, SealStands, EvidenceIntact, Flat;
    j := SealCommitVerdict(env, cmd, d, next, p);
    StepKeepsInv(env, cmd, d);
    SealKeepsVerdict(env, next, ops, p.attempt, cmd.head, cmd.plan, cmd.round);
  }

  // ---- A seal file replaced between stop and resume

  /** The disk of a seal that was stopped after its phase `seal_written`. */
  function SealWrittenDisk(d: Disk, j: Journal): Disk
    requires WellShaped(j) && j.kind == Seal && AttemptInHand(d, j)
  {
    Advance(PutFile(PutJournal(d, j), j.inputs.attempt, SEAL, SealFile(SealOf(j))), j, SealWritten)
  }

  lemma StopsAfterSealWritten(env: Environment, cmd: Command, d: Disk)
    requires Inv(env, d) && PendingKeys(d.journals) == {}
    requires cmd.SealCommand? && env.contract.plan == cmd.plan && env.contract.round == cmd.round
    requires PrepareSeal(env, cmd, d).Success?
    ensures var j := PrepareSeal(env, cmd, d).value;
            && AttemptInHand(d, j)
            && Invoke(env, cmd, d, 3) == RunResult(SealWrittenDisk(d, j), Interrupted)
  {
    var j := PrepareSeal(env, cmd, d).value;
    var d1 := PutJournal(d, j);
    hide Invoke, SealRefusal, PrepareSeal;
    SealPrepared(env, cmd, d);
    InvokePrepared(env, cmd, d, j, 2);
    var d2 := PutFile(d1, j.inputs.attempt, SEAL, SealFile(SealOf(j)));
    var d3 := Advance(d2, j, SealWritten);
    assert Continue(env, d1, KeyOf(j), 2) == Continue(env, d2, KeyOf(j), 1);
    assert Continue(env, d2, KeyOf(j), 1) == Continue(env, d3, KeyOf(j), 0);
    assert Continue(env, d3, KeyOf(j), 0) == RunResult(d3, Interrupted);
  }

  /** The recovery checks leave the seal file, the journal's phase and the pointer's status out. */
  lemma ChecksSkipSealFile(env: Environment, cmd: Command, d: Disk, e: Disk, j: Journal, phase: Phase, content: Content)
    requires cmd.SealCommand? && WellShaped(j) && j.kind == Seal && phase in PhasesOf(Seal) && AttemptInHand(d, j)
    requires e.pointer.Some? && PointerShape(e.pointer.value) && e.pointer.value.attempt == j.inputs.attempt
    requires e.captures == d.captures && j.inputs.attempt in e.attempts
    requires e.attempts[j.inputs.attempt] == d.attempts[j.inputs.attempt][SEAL := content]
    requires SealRefusal(env, cmd, d, j, KeyOf(j)).None?
    ensures SealRefusal(env, cmd, e, j.(phase := phase), KeyOf(j)).None?
  {
    var attempt := j.inputs.attempt;
    SealFileUnseen(d.attempts[attempt], e.attempts[attempt], content);
    hide InventoryOf, PresealEvidence, Flat, ValidInventory;
  }

  /** What the recovery checks read of a directory leaves the seal file out. */
  lemma SealFileUnseen(f: Files, g: Files, content: Content)
    requires g == f[SEAL := content]
    ensures InventoryOf(g, {SEAL}) == InventoryOf(f, {SEAL}) && PresealEvidence(g) == PresealEvidence(f)
    ensures Flat(f) ==> Flat(g)
  {
    assert InventoryOf(g, {SEAL}).files == InventoryOf(f, {SEAL}).files;
    assert '/' !in SEAL;
  }

  /** The disk of a completed seal whose file holds `content`. */
  function SealedOver(d: Disk, j: Journal, content: Content): Disk
    requires WellShaped(j) && j.kind == Seal && AttemptInHand(d, j)
  {
    d.(attempts := d.attempts[j.inputs.attempt := d.attempts[j.inputs.attempt][SEAL := content]],
       pointer := Some(SealedPointer(d.pointer.value, j.id, content)),
       journals := d.journals[KeyOf(j) := j.(phase := Committed)])
  }

  /** The rest of a seal that is resumed over a file with any content. */
  lemma ResumedWrites(env: Environment, d: Disk, j: Journal, content: Content)
    requires WellShaped(j) && j.kind == Seal && j.phase == Prepared && AttemptInHand(d, j)
    requires d.pointer.value.status == Open && j.payload.ledgerSha == Digest(LedgerDoc(d.ledger))
    ensures var e := PutFile(SealWrittenDisk(d, j), j.inputs.attempt, SEAL, content);
            Continue(env, e, KeyOf(j), 4)
              == RunResult(SealedOver(d, j, content), Completed(SealedOver(d, j, content).pointer.value))
  {
    var e := PutFile(SealWrittenDisk(d, j), j.inputs.attempt, SEAL, content);
    PutTwice(d.attempts, j.inputs.attempt, SealFile(SealOf(j)), content);
    var moved := j.(phase := SealWritten);
    var e1 := e.(pointer := Some(SealedPointer(d.pointer.value, j.id, content)));
    var e2 := Advance(e1, moved, PointerSealed);
    assert Continue(env, e, KeyOf(j), 4) == Continue(env, e1, KeyOf(j), 3);
    assert Continue(env, e1, KeyOf(j), 3) == Continue(env, e2, KeyOf(j), 2);
    assert Advance(e2, moved, Committed).journals == d.journals[KeyOf(j) := j.(phase := Committed)];
  }

  lemma PutTwice(attempts: map<Digest, Files>, attempt: Digest, was: Content, content: Content)
    requires attempt in attempts
    ensures var once := attempts[attempt := attempts[attempt][SEAL := was]];
            once[attempt := once[attempt][SEAL := content]] == attempts[attempt := attempts[attempt][SEAL := content]]
  {
    assert attempts[attempt][SEAL := was][SEAL := content] == attempts[attempt][SEAL := content];
  }

  /** Replaces the seal file of one attempt behind the commands' back. */
  function ReplaceSeal(d: Disk, attempt: Digest, content: Content): Op
    requires attempt in d.attempts
  {
    EvidenceChange(d.attempts[attempt := d.attempts[attempt][SEAL := content]], d.captures)
  }

  lemma ResumesOver(env: Environment, cmd: Command, d: Disk, j: Journal, content: Content)
    requires Inv(env, d) && PendingKeys(d.journals) == {}
    requires cmd.SealCommand? && env.contract.plan == cmd.plan && env.contract.round == cmd.round
    requires PrepareSeal(env, cmd, d) == Success(j) && AttemptInHand(d, j)
    ensures var e := PutFile(SealWrittenDisk(d, j), j.inputs.attempt, SEAL, content);
            Invoke(env, cmd, e, 4) == Continue(env, e, KeyOf(j), 4)
  {
    var e := PutFile(SealWrittenDisk(d, j), j.inputs.attempt, SEAL, content);
    var moved := j.(phase := SealWritten);
    hide Invoke, Continue, SealRefusal, Inv, PrepareSeal;
    SealPrepared(env, cmd, d);
    WrittenJournals(env, cmd, d, j);
    PutTwice(d.attempts, j.inputs.attempt, SealFile(SealOf(j)), content);
    ChecksSkipSealFile(env, cmd, PutJournal(d, j), e, j, SealWritten, content);
    InvokePending(env, cmd, e, moved, 4);
  }

  lemma WrittenJournals(env: Environment, cmd: Command, d: Disk, j: Journal)
    requires Inv(env, d) && PendingKeys(d.journals) == {}
    requires cmd.SealCommand? && PrepareSeal(env, cmd, d) == Success(j) && AttemptInHand(d, j)
    ensures Candidate(SealWrittenDisk(d, j).journals) == Success(Some(KeyOf(j))) && PlanMatches(j.inputs, cmd)
    ensures SealWrittenDisk(d, j).journals[KeyOf(j)] == j.(phase := SealWritten)
  {
    var moved := j.(phase := SealWritten);
    hide TrustedJournal, PresealListed, ChainOk, PresealFilesOk, PresealEvidence, ExportsOf, Bound, Fold, Candidate,
      EventsJournaled, CommittedHappened, PointerOwned, SealHeld, InventoryOf, Tied, Flat, Attest;
    PrepareTies(env, cmd, d);
    PhaseKeepsTrust(j, SealWritten);
    WriteJournals(d.journals, moved);
    assert SealWrittenDisk(d, j).journals == d.journals[KeyOf(j) := moved];
    CandidateIs(d.journals[KeyOf(j) := moved], KeyOf(j));
  }

  lemma InvokePending(env: Environment, cmd: Command, d: Disk, j: Journal, n: nat)
    requires Candidate(d.journals) == Success(Some(KeyOf(j))) && d.journals[KeyOf(j)] == j
    requires env.contract.plan == cmd.plan && env.contract.round == cmd.round
    requires WellShaped(j) && j.kind == CommandKind(cmd) && PlanMatches(j.inputs, cmd)
    requires RefusalOf(env, cmd, d, j, KeyOf(j)).None?
    ensures Invoke(env, cmd, d, n) == Continue(env, d, KeyOf(j), n)
  {
    hide RefusalOf, Continue, Candidate;
  }

  /**
   The failing family in full: a seal stopped after `seal_written`, its file replaced by anything
   else, and resumed. The command completes, the pointer carries the digest of the replacement,
   and the seal does not validate.
   */
  lemma ReplacedSealNeverValidates(env: Environment, cmd: Command, d: Disk, content: Content)
    requires Inv(env, d) && PendingKeys(d.journals) == {}
    requires cmd.SealCommand? && env.contract.plan == cmd.plan && env.contract.round == cmd.round
    requires PrepareSeal(env, cmd, d).Success?
    ensures var j := PrepareSeal(env, cmd, d).value;
            && AttemptInHand(d, j)
            && var stopped := Invoke(env, cmd, d, 3);
            && stopped.outcome == Interrupted && j.inputs.attempt in stopped.disk.attempts
            && var resumed := Invoke(env, cmd, Execute(env, stopped.disk,
              ReplaceSeal(stopped.disk, j.inputs.attempt, content)), 4);
            && resumed == RunResult(SealedOver(d, j, content), Completed(SealedOver(d, j, content).pointer.value))
            && resumed.outcome.result.sealSha == Some(Digest(ContentDoc(content)))
            && (Verdict(env, resumed.disk, cmd, j.inputs.attempt).Success? <==> content == SealFile(SealOf(j)))
  {
    hide Invoke, Continue, PrepareSeal, SealRefusal, ValidateSeal, Inv;
    var j := PrepareSeal(env, cmd, d).value;
    SealPrepared(env, cmd, d);
    StopsAfterSealWritten(env, cmd, d);
    ResumesOver(env, cmd, d, j, content);
    ResumedWrites(env, d, j, content);
    InPlaceOver(env, cmd, d, j, content);
    VerdictExactly(env, cmd, SealedOver(d, j, content), j);
  }

  lemma InPlaceOver(env: Environment, cmd: Command, d: Disk, j: Journal, content: Content)
    requires Inv(env, d) && PendingKeys(d.journals) == {}
    requires cmd.SealCommand? && env.contract.plan == cmd.plan && env.contract.round == cmd.round
    requires PrepareSeal(env, cmd, d) == Success(j) && AttemptInHand(d, j)
    ensures SealInPlace(env, cmd, SealedOver(d, j, content), j)
  {
    hide SealRefusal, TrustedJournal, PresealListed, ChainOk, PresealFilesOk, PresealEvidence, ExportsOf, Attest,
      Bound, Fold, EventsJournaled, CommittedHappened, InventoryOf, Flat;
    SealPrepared(env, cmd, d);
    PrepareTies(env, cmd, d);
    ChecksSkipSealFile(env, cmd, PutJournal(d, j), SealedOver(d, j, content), j, Prepared, content);
  }
}
