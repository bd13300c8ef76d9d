/**
 * A closed attempt from the commit of its abandon or reopen on, however often that was stopped
 * and resumed: its directory passes the frozen test exactly as long as it is what the commit left.
 */
module AttemptFreeze {
  import opened Wrappers
  import opened AttemptModel
  import opened OperationsLedger
  import opened AttemptTransitions
  import opened AttemptInvariant
  import opened AttemptSafety
  import opened AttemptSteps
  import opened AttemptRecovery
  import opened AttemptRuns
  import opened AttemptTheorems
  import opened AttemptEffects
  import opened AttemptGuarantees

  // ---- At the commit

  function WithFiles(d: Disk, attempt: Digest, files: Files): Disk {
    d.(attempts := d.attempts[attempt := files])
  }

  /** The journal that the last write of an abandon or reopen commits. */
  lemma TerminalCommits(env: Environment, cmd: Command, d: Disk, next: Disk, p: Pointer) returns (j: Journal)
    requires Inv(env, d) && (cmd.AbandonCommand? || cmd.ReopenCommand?) && Step(env, cmd, d) == Commit(next, p)
    ensures IsPending(d, j) && j.kind == CommandKind(cmd) && AttemptInHand(d, j)
    ensures TerminalRefusal(env, cmd, d, j, KeyOf(j)).None? && TerminalWrite(env, d, j) == Commit(next, p)
  {
    hide TerminalRefusal, Prepare, TerminalWrite, LedgerSound, Tied, Quiet, CommittedHappened, EventsJournaled,
      PointerOwned, SealHeld;
    j := d.journals[Candidate(d.journals).value.value];
  }

  lemma CommitCloses(env: Environment, d: Disk, j: Journal, next: Disk, p: Pointer)
    requires IsPending(d, j) && (j.kind == Abandon || j.kind == Reopen) && AttemptInHand(d, j)
    requires TerminalWrite(env, d, j) == Commit(next, p)
    ensures next == Advance(d, j, Committed) && d.pointer == Some(p)
    ensures p.attempt in d.attempts && p.status == FinalStatus(j.kind)
    ensures p.frozen == Some(InventoryOf(d.attempts[p.attempt], {}))
    ensures j.kind == Abandon ==> MarkerExact(d, j)
  {
    hide InventoryOf, Append, ExpectedEvent;
    PendingPhase(d, j);
  }

  /** The recovery checks of an abandon have compared the files around the marker. */
  lemma AbandonInventory(env: Environment, cmd: Command, d: Disk, j: Journal)
    requires cmd.AbandonCommand? && WellShaped(j) && j.kind == Abandon && AttemptInHand(d, j)
    requires TerminalRefusal(env, cmd, d, j, KeyOf(j)).None?
    ensures InventoryOf(d.attempts[j.inputs.attempt], {MARKER}) == j.payload.inventory
  {
    hide InventoryOf, ChainOk, FailureReceipt, ExportsOf, EventsRefusal;
  }

  /**
   At the commit of an abandon or reopen, whatever stops and evidence changes led to it, the
   attempt directory passes the frozen test exactly when it is, file by file, what the commit left.
   */
  lemma FrozenAtCommit(env: Environment, cmd: Command, d: Disk, next: Disk, p: Pointer, files: Files)
    requires Inv(env, d) && (cmd.AbandonCommand? || cmd.ReopenCommand?) && Step(env, cmd, d) == Commit(next, p)
    ensures next.pointer == Some(p) && p.attempt in next.attempts && next.attempts == d.attempts
    ensures PendingKeys(next.journals) == {} && Inv(env, next)
    ensures PriorFrozen(WithFiles(next, p.attempt, files), p) <==> files == next.attempts[p.attempt]
  {
    hide Inv, Step, InventoryOf, TerminalRefusal, TerminalWrite;
    var j := TerminalCommits(env, cmd, d, next, p);
    CommitCloses(env, d, j, next, p);
    InventoryDetermines(files, d.attempts[p.attempt]);
    if cmd.AbandonCommand? { AbandonInventory(env, cmd, d, j); }
    StepKeepsInv(env, cmd, d);
    CommittedJournals(env, d, j);
  }

  lemma CommittedJournals(env: Environment, d: Disk, j: Journal)
    requires Inv(env, d) && IsPending(d, j)
    ensures PendingKeys(Advance(d, j, Committed).journals) == {}
  {
    hide LedgerSound, Tied, Quiet, CommittedHappened, EventsJournaled, PointerOwned, SealHeld, TrustedJournal,
      PresealListed;
    PhaseKeepsTrust(j, Committed);
    WriteJournals(d.journals, j.(phase := Committed));
  }

  // ---- Until the next begin

  /** The attempt of `p` is closed, and at most a begin is under way, of another attempt. */
  predicate ClosedOn(d: Disk, p: Pointer) {
    && d.pointer == Some(p) && p.status in {Abandoned, Reopened} && p.attempt in d.attempts
    && JournalKey(Begin, p.attempt) in d.journals && JournalKey(Begin, p.attempt) !in PendingKeys(d.journals)
    && forall k | k in PendingKeys(d.journals) :: k.kind == Begin
  }

  predicate DirectoryKept(d: Disk, e: Disk, attempt: Digest)
    requires attempt in d.attempts
  {
    attempt in e.attempts && e.attempts[attempt] == d.attempts[attempt]
  }

  /** The pointer has passed to another attempt. */
  predicate Replaced(d: Disk, p: Pointer) {
    d.pointer.Some? && d.pointer.value.attempt != p.attempt
  }

  /** A begin has opened the pointer on its attempt and is still pending. */
  ghost predicate Opening(d: Disk, p: Pointer) {
    && Replaced(d, p)
    && exists j :: IsPending(d, j) && j.kind == Begin && d.pointer == Some(OpenPointer(j.id, j.inputs.head))
  }

  /** The four kinds of write that a begin makes. */
  predicate IsBeginWrite(d: Disk, j: Journal, next: Disk) {
    || next == d.(ledger := next.ledger)
    || next in {Advance(d, j, LedgerAppended), Advance(d, j, DirectoryCreated), Advance(d, j, PointerOpen)}
    || (j.id !in d.attempts && next == d.(attempts := d.attempts[j.id := map[]]))
    || (WellShaped(j) && j.kind == Begin && next == d.(pointer := Some(OpenPointer(j.id, j.inputs.head))))
  }

  lemma BeginWriteKinds(env: Environment, d: Disk, j: Journal)
    requires IsPending(d, j) && j.kind == Begin && d.ledger != []
    ensures var r := BeginWrite(env, d, j);
            && (r.Write? ==> IsBeginWrite(d, j, r.next))
            && (r.Commit? ==> d.pointer == Some(OpenPointer(j.id, j.inputs.head)) && r.next.pointer == d.pointer)
  {
    hide Append, ExpectedEvent, Events;
    PendingPhase(d, j);
  }

  /** A pending journal that moves to another phase is still the pending one. */
  lemma AdvancedIsPending(d: Disk, j: Journal, phase: Phase)
    requires JournalsSound(d.journals) && IsPending(d, j) && phase in PhasesOf(j.kind) && phase != Committed
    ensures IsPending(Advance(d, j, phase), j.(phase := phase))
  {
    hide TrustedJournal, PresealListed;
    PhaseKeepsTrust(j, phase);
    WriteJournals(d.journals, j.(phase := phase));
  }

  /** What one write of a pending begin does to a closed attempt. */
  lemma BeginWriteOnClosed(env: Environment, d: Disk, j: Journal, p: Pointer)
    requires JournalsSound(d.journals) && ClosedOn(d, p) && IsPending(d, j) && j.kind == Begin && d.ledger != []
    ensures var r := BeginWrite(env, d, j);
            && !r.Commit?
            && (r.Write? ==> (ClosedOn(r.next, p) && DirectoryKept(d, r.next, p.attempt)) || Opening(r.next, p))
  {
    hide BeginWrite, JournalsSound;
    BeginWriteKinds(env, d, j);
    assert KeyOf(j) in PendingKeys(d.journals);
    assert j.id != p.attempt;
    forall phase | phase in PhasesOf(Begin) - {Committed}
      ensures ClosedOn(Advance(d, j, phase), p)
    {
      AdvancedIsPending(d, j, phase);
    }
    assert IsPending(d.(pointer := Some(OpenPointer(j.id, j.inputs.head))), j);
  }

  lemma PrepareOnClosed(env: Environment, cmd: Command, d: Disk, p: Pointer)
    requires ClosedOn(d, p) && PendingKeys(d.journals) == {} && Prepare(env, cmd, d).Success?
    ensures cmd.BeginCommand?
    ensures var next := PutJournal(d, Prepare(env, cmd, d).value);
            ClosedOn(next, p) && DirectoryKept(d, next, p.attempt)
  {
    hide PriorFrozen, ChainOk, PresealFilesOk, InventoryOf, Attest, FailureReceipt;
    var j := Prepare(env, cmd, d).value;
    var next := PutJournal(d, j);
    assert forall k | k in PendingKeys(next.journals) :: k == KeyOf(j);
  }

  lemma ClosedStep(env: Environment, cmd: Command, d: Disk, p: Pointer)
    requires Inv(env, d) && ClosedOn(d, p)
    ensures var r := Step(env, cmd, d);
            && !r.Commit?
            && (r.Write? ==> (ClosedOn(r.next, p) && DirectoryKept(d, r.next, p.attempt)) || Opening(r.next, p))
  {
    hide Prepare, RefusalOf, BeginWrite, ClosedOn, Opening, LedgerSound, Tied, Quiet, TrustedJournal, PresealListed,
      CommittedHappened, EventsJournaled, PointerOwned, SealHeld;
    InvSound(env, d);
    var c := Candidate(d.journals);
    if c.Success? {
      if c.value.None? {
        if Prepare(env, cmd, d).Success? { PrepareOnClosed(env, cmd, d, p); }
      } else {
        var j := d.journals[c.value.value];
        assert j.kind == Begin by { PendingIsBegin(d, p, c.value.value); }
        BeginWriteOnClosed(env, d, j, p);
      }
    }
  }

  lemma PendingIsBegin(d: Disk, p: Pointer, key: JournalKey)
    requires JournalsSound(d.journals) && ClosedOn(d, p) && key in PendingKeys(d.journals)
    ensures d.journals[key].kind == Begin
  {
    assert KeyOf(d.journals[key]) == key;
  }

  lemma OpeningStep(env: Environment, cmd: Command, d: Disk, p: Pointer)
    requires Inv(env, d) && Opening(d, p)
    ensures var r := Step(env, cmd, d);
            && (r.Write? ==> Opening(r.next, p)) && (r.Commit? ==> Replaced(r.next, p))
  {
    hide Prepare, RefusalOf, LedgerSound, Quiet, TrustedJournal, PresealListed, CommittedHappened, EventsJournaled,
      PointerOwned, SealHeld, Append;
    var j :| IsPending(d, j) && j.kind == Begin && d.pointer == Some(OpenPointer(j.id, j.inputs.head));
    CandidateIs(d.journals, KeyOf(j));
    OpeningWrite(env, d, j, p);
  }

  lemma OpeningWrite(env: Environment, d: Disk, j: Journal, p: Pointer)
    requires Inv(env, d) && IsPending(d, j) && j.kind == Begin && Replaced(d, p)
    requires d.pointer == Some(OpenPointer(j.id, j.inputs.head))
    ensures var r := BeginWrite(env, d, j);
            && (r.Write? ==> Opening(r.next, p)) && (r.Commit? ==> Replaced(r.next, p))
  {
    hide BeginWrite, Inv, Opening, IsPending, PendingKeys, JournalsSound;
    InvSound(env, d);
    BeginWriteKinds(env, d, j);
    assert WellShaped(j) by { PendingShape(d, j); }
    forall phase | phase in {LedgerAppended, DirectoryCreated, PointerOpen}
      ensures Opening(Advance(d, j, phase), p)
    {
      AdvancedIsPending(d, j, phase);
      StillOpening(d, Advance(d, j, phase), j, j.(phase := phase), p);
    }
    var r := BeginWrite(env, d, j);
    if r.Write? && r.next.journals == d.journals {
      PendingReads(d, r.next, j);
      StillOpening(d, r.next, j, j, p);
    }
  }

  lemma PendingShape(d: Disk, j: Journal)
    requires IsPending(d, j)
    ensures WellShaped(j)
  {
  }

  /** Which journal is pending is read off the journals alone. */
  lemma PendingReads(d: Disk, e: Disk, j: Journal)
    requires IsPending(d, j) && e.journals == d.journals
    ensures IsPending(e, j)
  {
  }

  lemma StillOpening(d: Disk, e: Disk, j: Journal, i: Journal, p: Pointer)
    requires IsPending(d, j) && j.kind == Begin && Replaced(d, p) && d.pointer == Some(OpenPointer(j.id, j.inputs.head))
    requires e.pointer == d.pointer && IsPending(e, i) && i.kind == Begin && i.id == j.id && i.inputs == j.inputs
    ensures Opening(e, p)
  {
  }

  lemma {:induction false} RunOpening(env: Environment, cmd: Command, d: Disk, p: Pointer, budget: nat)
    requires Inv(env, d) && Opening(d, p)
    ensures Replaced(Run(env, cmd, d, budget).disk, p)
    decreases budget
  {
    hide Step, Inv, Opening;
    assert Replaced(d, p) by { OpeningReplaced(d, p); }
    OpeningStep(env, cmd, d, p);
    StepKeepsInv(env, cmd, d);
    if Step(env, cmd, d).Write? && budget > 0 { RunOpening(env, cmd, Step(env, cmd, d).next, p, budget - 1); }
  }

  lemma OpeningReplaced(d: Disk, p: Pointer)
    requires Opening(d, p)
    ensures Replaced(d, p)
  {
  }

  lemma {:induction false} RunOnClosed(env: Environment, cmd: Command, d: Disk, p: Pointer, budget: nat)
    requires Inv(env, d) && ClosedOn(d, p)
    ensures var e := Run(env, cmd, d, budget).disk;
            (ClosedOn(e, p) && p.attempt in d.attempts && DirectoryKept(d, e, p.attempt)) || Replaced(e, p)
    decreases budget
  {
    hide Step, Inv, Opening;
    ClosedStep(env, cmd, d, p);
    StepKeepsInv(env, cmd, d);
    if Step(env, cmd, d).Write? && budget > 0 {
      var next := Step(env, cmd, d).next;
      if ClosedOn(next, p) && DirectoryKept(d, next, p.attempt) {
        RunOnClosed(env, cmd, next, p, budget - 1);
      } else {
        RunOpening(env, cmd, next, p, budget - 1);
      }
    }
  }

  /** One thing that happens to a closed attempt whose directory is left alone from outside. */
  lemma ExecuteOnClosed(env: Environment, d: Disk, p: Pointer, op: Op)
    requires Inv(env, d) && ClosedOn(d, p)
    requires op.EvidenceChange? ==> p.attempt in op.attempts && op.attempts[p.attempt] == d.attempts[p.attempt]
    ensures var e := Execute(env, d, op);
            (ClosedOn(e, p) && p.attempt in d.attempts && DirectoryKept(d, e, p.attempt)) || Replaced(e, p)
  {
    hide Step, Inv, Invoke, Append;
    match op
    case Invocation(cmd, budget) =>
      ValidatedOnce(env, cmd, d, budget);
      RunOnClosed(env, cmd, d, p, budget);
    case OrdinaryAppend(_, _, _, _, _) =>
    case EvidenceChange(_, _) =>
      assert PendingKeys(Execute(env, d, op).journals) == PendingKeys(d.journals);
  }

  /** No run touches the directory of a closed attempt before a begin has replaced the pointer. */
  lemma {:induction false} ClosedUntilBegin(env: Environment, d: Disk, p: Pointer, ops: seq<Op>)
    requires Inv(env, d) && ClosedOn(d, p)
    requires forall op | op in ops && op.EvidenceChange? ::
               p.attempt in op.attempts && op.attempts[p.attempt] == d.attempts[p.attempt]
    ensures var e := ExecuteAll(env, d, ops);
            || (ClosedOn(e, p) && DirectoryKept(d, e, p.attempt))
            || exists i :: 0 <= i <= |ops| && Replaced(ExecuteAll(env, d, ops[..i]), p)
    decreases |ops|
  {
    hide Inv, Execute, ClosedOn, Replaced;
    assert p.attempt in d.attempts by { ClosedDirectory(d, p); }
    if ops != [] {
      var e := Execute(env, d, ops[0]);
      ExecuteKeepsInv(env, d, ops[0]);
      ExecuteOnClosed(env, d, p, ops[0]);
      if Replaced(e, p) {
        assert ExecuteAll(env, d, ops[..1]) == ExecuteAll(env, e, ops[..1][1..]);
        assert ops[..1][1..] == [];
      } else {
        assert forall op | op in ops[1..] :: op in ops;
        ClosedUntilBegin(env, e, p, ops[1..]);
        if i :| 0 <= i <= |ops[1..]| && Replaced(ExecuteAll(env, e, ops[1..][..i]), p) {
          assert ops[..i + 1][1..] == ops[1..][..i];
          assert ExecuteAll(env, d, ops[..i + 1]) == ExecuteAll(env, e, ops[1..][..i]);
        }
      }
    }
  }

  lemma ClosedDirectory(d: Disk, p: Pointer)
    requires ClosedOn(d, p)
    ensures p.attempt in d.attempts
  {
  }

  // ---- From the commit on

  lemma CommitIsClosed(env: Environment, cmd: Command, d: Disk, next: Disk, p: Pointer)
    requires Inv(env, d) && (cmd.AbandonCommand? || cmd.ReopenCommand?) && Step(env, cmd, d) == Commit(next, p)
    ensures Inv(env, next) && ClosedOn(next, p)
  {
    hide Step, InventoryOf, TerminalRefusal, TerminalWrite, LedgerSound, CommittedHappened, EventsJournaled,
      SealHeld, Tied, PriorFrozen;
    var j := TerminalCommits(env, cmd, d, next, p);
    CommitCloses(env, d, j, next, p);
    CommittedJournals(env, d, j);
    StepKeepsInv(env, cmd, d);
  }

  /**
   From the commit of an abandon or reopen on, over any run that leaves the attempt directory
   alone from outside, the frozen test passes until a begin has replaced the pointer; and as long
   as nothing is pending, a begin is admitted exactly when its own directory is free.
   */
  lemma FrozenUntilBegin(env: Environment, cmd: Command, d: Disk, next: Disk, p: Pointer, ops: seq<Op>, begin: Command)
    requires Inv(env, d) && (cmd.AbandonCommand? || cmd.ReopenCommand?) && Step(env, cmd, d) == Commit(next, p)
    requires p.attempt in next.attempts && begin.BeginCommand?
    requires forall op | op in ops && op.EvidenceChange? ::
               p.attempt in op.attempts && op.attempts[p.attempt] == next.attempts[p.attempt]
    ensures var e := ExecuteAll(env, next, ops);
            || (exists i :: 0 <= i <= |ops| && Replaced(ExecuteAll(env, next, ops[..i]), p))
            || (&& e.pointer == Some(p) && PriorFrozen(e, p) && e.ledger != []
                && (PendingKeys(e.journals) == {} ==>
                      var id := Digest(InputsDoc(BeginInputs(begin.head, begin.plan, begin.round, Tip(e.ledger))));
                      PrepareBegin(env, begin, e).Success? <==> id !in e.attempts))
  {
    hide Inv, Step, ExecuteAll, InventoryOf, Replaced, PrepareBegin;
    CommitIsClosed(env, cmd, d, next, p);
    ClosedUntilBegin(env, next, p, ops);
    var e := ExecuteAll(env, next, ops);
    RunsKeepInv(env, next, ops);
    InvSound(env, e);
    if ClosedOn(e, p) && DirectoryKept(next, e, p.attempt) {
      FrozenAtCommit(env, cmd, d, next, p, e.attempts[p.attempt]);
      FrozenReads(WithFiles(next, p.attempt, e.attempts[p.attempt]), e, p);
      if PendingKeys(e.journals) == {} { BeginAdmitted(env, begin, e); }
    }
  }

  /** The frozen test reads the attempt's directory only. */
  lemma FrozenReads(d: Disk, e: Disk, p: Pointer)
    requires p.attempt in d.attempts && p.attempt in e.attempts && d.attempts[p.attempt] == e.attempts[p.attempt]
    ensures PriorFrozen(d, p) <==> PriorFrozen(e, p)
  {
    hide InventoryOf;
  }
}
