/**
 What a seal protects: on the disk of its commit, and in every later state until the reopen, it
 validates exactly as long as the sealed evidence is what the commit found.
 */
module AttemptSealEvidence {
  import opened Wrappers
  import opened AttemptModel
  import opened OperationsLedger
  import opened AttemptTransitions
  import opened AttemptInvariant
  import opened AttemptSteps
  import opened AttemptRecovery
  import opened AttemptRuns
  import opened AttemptTheorems
  import opened AttemptEffects
  import opened AttemptSealing
  import opened AttemptSealCommit
  import opened AttemptAdmission

  /** The sealed files of a directory: all but the seal and what reviews add after it. */
  function SealedFiles(files: Files): Files {
    map p | p in files
      && p != "operations-seal.json" && p != "f1-history.json" && p != "f1-review.md"
      && p != "f4-scope.json" && p != "f4-review.md" :: files[p]
  }

  /** What two directories and captures must have in common for the same seal to stand for both. */
  predicate SameEvidence(env: Environment, d: Disk, attempts: map<Digest, Files>, captures: Captures, attempt: Digest)
    requires attempt in d.attempts && "operations-seal.json" in d.attempts[attempt]
  {
    && attempt in attempts && "operations-seal.json" in attempts[attempt]
    && attempts[attempt]["operations-seal.json"] == d.attempts[attempt]["operations-seal.json"]
    && (forall p | p in attempts[attempt] :: '/' !in p)
    && SealedFiles(attempts[attempt]) == SealedFiles(d.attempts[attempt])
    && env.exports(PresealFiles(attempts[attempt]), captures, attempt)
       == env.exports(PresealFiles(d.attempts[attempt]), d.captures, attempt)
  }

  lemma SealedFilesSpelled(files: Files)
    ensures InventoryOf(files, {SEAL} + POSTSEAL) == WholeInventory(SealedFiles(files))
    ensures PresealEvidence(files) == PresealFiles(files)
  {
    FilesSpelled(files);
    assert InventoryOf(files, {SEAL} + POSTSEAL).files == Digests(SealedFiles(files));
  }

  lemma InventoriesEqual(f: Files, g: Files)
    ensures WholeInventory(f) == WholeInventory(g) <==> f == g
  {
    if Digests(f) == Digests(g) {
      assert forall p :: p in f <==> p in Digests(f);
      assert forall p :: p in g <==> p in Digests(g);
      assert forall p | p in f :: Digests(f)[p] == Digests(g)[p];
      assert f == g;
    }
  }

  /** The same sealed files have the same pre-seal files. */
  lemma SealedDecidesPreseal(f: Files, g: Files)
    requires SealedFiles(f) == SealedFiles(g)
    ensures PresealFiles(f) == PresealFiles(g)
  {
    assert PresealFiles(f) == map p | p in SealedFiles(f) && p != "attempt-abandoned.json" :: SealedFiles(f)[p];
    assert PresealFiles(g) == map p | p in SealedFiles(g) && p != "attempt-abandoned.json" :: SealedFiles(g)[p];
  }

  /**
   What a valid seal says: every field of it, the ledger, the directory, the exports, the
   attestation of all these, and the sealed pointer.
   */
  predicate SealSays(env: Environment, d: Disk, seal: Path, head: string, attempt: Digest, plan: string, round: string,
                     s: SealRecord)
  {
    && ChainOk(env, d.ledger) && env.contract.plan == plan && env.contract.round == round
    && seal.attempt in d.attempts && seal.name in d.attempts[seal.attempt]
    && var files := d.attempts[seal.attempt];
    var exports := env.exports(PresealFiles(files), d.captures, attempt);
    && exports.Some?
    && var inventory := WholeInventory(SealedFiles(files));
    var receipts := env.attest(PresealFiles(files), d.captures, attempt, head, env.contract.base, inventory,
                               exports.value);
    && receipts.Some?
    && var a := Attestation(attempt, head, env.contract.base, receipts.value, inventory, exports.value);
    var tip := Digest(EntryDoc(d.ledger[|d.ledger| - 1]));
    var inputs := SealInputs(attempt, head, plan, round, tip, Digest(AttestationDoc(a)),
                             Digest(InventoryDoc(inventory.files)), Digest(ExportsDoc(exports.value)));
    && s == SealRecord(attempt, Digest(InputsDoc(inputs)), head, plan, round, tip, Digest(LedgerDoc(d.ledger)),
                       inputs.attestationSha, inputs.inventorySha, inputs.exportsSha)
    && files[seal.name] == SealFile(s) && (forall p | p in files :: '/' !in p)
    && d.pointer.Some? && PointerShape(d.pointer.value) && d.pointer.value.status == Sealed
    && d.pointer.value.attempt == attempt && d.pointer.value.head == head && d.pointer.value.sealId == Some(s.sealId)
    && d.pointer.value.sealSha == Some(Digest(ContentDoc(files[seal.name])))
  }

  /** On any disk, a seal validates exactly when it says all this. */
  lemma ValidSealExactly(env: Environment, d: Disk, seal: Path, head: string, attempt: Digest, plan: string,
                         round: string, s: SealRecord)
    ensures ValidateSeal(env, d, seal, head, attempt, plan, round) == Success(s) <==>
              SealSays(env, d, seal, head, attempt, plan, round, s)
  {
    if seal.attempt in d.attempts { SealedFilesSpelled(d.attempts[seal.attempt]); }
    hide InventoryOf, PresealEvidence, WholeInventory, SealedFiles, PresealFiles, LinkOk;
  }

  lemma ValidSealSays(env: Environment, d: Disk, seal: Path, head: string, attempt: Digest, plan: string, round: string)
    requires ValidateSeal(env, d, seal, head, attempt, plan, round).Success?
    ensures SealSays(env, d, seal, head, attempt, plan, round,
                     ValidateSeal(env, d, seal, head, attempt, plan, round).value)
  {
    hide SealSays, ValidateSeal;
    ValidSealExactly(env, d, seal, head, attempt, plan, round,
      ValidateSeal(env, d, seal, head, attempt, plan, round).value);
  }

  /** Two valid seals of one attempt over one pointer are over the same evidence. */
  lemma ValidSealsAgree(env: Environment, cmd: Command, d: Disk, e: Disk, attempt: Digest)
    requires cmd.SealCommand? && e.pointer == d.pointer
    requires Verdict(env, d, cmd, attempt).Success? && Verdict(env, e, cmd, attempt).Success?
    ensures attempt in d.attempts && "operations-seal.json" in d.attempts[attempt]
    ensures SameEvidence(env, d, e.attempts, e.captures, attempt)
  {
    hide ValidateSeal, WholeInventory, SealedFiles, PresealFiles, ChainOk;
    ValidSealSays(env, d, Path(attempt, SEAL), cmd.head, attempt, cmd.plan, cmd.round);
    ValidSealSays(env, e, Path(attempt, SEAL), cmd.head, attempt, cmd.plan, cmd.round);
    InventoriesEqual(SealedFiles(d.attempts[attempt]), SealedFiles(e.attempts[attempt]));
  }

  /** With the captures unchanged, the same evidence keeps a valid seal valid. */
  lemma SameEvidenceValidates(env: Environment, cmd: Command, d: Disk, e: Disk, attempt: Digest)
    requires cmd.SealCommand? && e.pointer == d.pointer && e.ledger == d.ledger && e.captures == d.captures
    requires Verdict(env, d, cmd, attempt).Success?
    requires attempt in d.attempts && "operations-seal.json" in d.attempts[attempt]
    requires SameEvidence(env, d, e.attempts, e.captures, attempt)
    ensures Verdict(env, e, cmd, attempt) == Verdict(env, d, cmd, attempt)
  {
    SealedFilesSpelled(d.attempts[attempt]);
    SealedFilesSpelled(e.attempts[attempt]);
    SealedDecidesPreseal(d.attempts[attempt], e.attempts[attempt]);
    hide ChainOk, InventoryOf, PresealEvidence, WholeInventory, SealedFiles, PresealFiles;
  }

  // ---- From the commit to the reopen

  /** While a seal stands, ledger and pointer stay until the reopen entry, whatever happens to the evidence. */
  lemma {:induction false} StandsUntilReopen(env: Environment, d: Disk, ops: seq<Op>)
    requires Inv(env, d) && SealStands(d)
    ensures var e := ExecuteAll(env, d, ops);
            Reopens(d, e) || (e.ledger == d.ledger && e.pointer == d.pointer && SealStands(e))
    decreases |ops|
  {
    hide Inv, Execute, SealStands;
    if ops != [] {
      var e := Execute(env, d, ops[0]);
      ExecuteKeepsInv(env, d, ops[0]);
      ExecuteStandsAnyhow(env, d, ops[0]);
      if Reopens(d, e) { RunsGrow(env, e, ops[1..]); } else { StandsUntilReopen(env, e, ops[1..]); }
    }
  }

  lemma ExecuteStandsAnyhow(env: Environment, d: Disk, op: Op)
    requires Inv(env, d) && SealStands(d)
    ensures var e := Execute(env, d, op);
            Reopens(d, e) || (e.ledger == d.ledger && e.pointer == d.pointer && SealStands(e))
  {
    hide Step, Inv, Invoke, Append;
    match op
    case Invocation(cmd, budget) =>
      ValidatedOnce(env, cmd, d, budget);
      RunWhileSealStands(env, cmd, d, budget);
    case OrdinaryAppend(_, _, _, _, _) => AppendRefusedWhileHeld(env, d, op);
    case EvidenceChange(attempts, captures) =>
      assert PendingKeys(Execute(env, d, op).journals) == PendingKeys(d.journals);
  }

  /**
   From the commit of a seal that validates, over any run and any change of the evidence up to the
   reopen entry: the seal validates only on the evidence of the commit and its exports; and, when
   the captures are those of the commit, exactly on that evidence.
   */
  lemma SealProtectsEvidence(env: Environment, cmd: Command, d: Disk, next: Disk, p: Pointer, ops: seq<Op>)
    requires Inv(env, d) && cmd.SealCommand? && Step(env, cmd, d) == Commit(next, p)
    requires Verdict(env, next, cmd, p.attempt).Success?
    ensures p.attempt in next.attempts && "operations-seal.json" in next.attempts[p.attempt]
    ensures var e := ExecuteAll(env, next, ops);
            || Reopens(next, e)
            || (var same := SameEvidence(env, next, e.attempts, e.captures, p.attempt);
                && (Verdict(env, e, cmd, p.attempt).Success? ==> same)
                && (e.captures == next.captures ==> (Verdict(env, e, cmd, p.attempt).Success? <==> same)))
  {
    hide Step, Inv, ExecuteAll, ValidateSeal, SealStands, SameEvidence, Flat;
    var j := SealCommitVerdict(env, cmd, d, next, p);
    StepKeepsInv(env, cmd, d);
    StandsUntilReopen(env, next, ops);
    var e := ExecuteAll(env, next, ops);
    if !Reopens(next, e) {
      if Verdict(env, e, cmd, p.attempt).Success? { ValidSealsAgree(env, cmd, next, e, p.attempt); }
      if e.captures == next.captures && SameEvidence(env, next, e.attempts, e.captures, p.attempt) {
        SameEvidenceValidates(env, cmd, next, e, p.attempt);
      }
    }
  }
}
