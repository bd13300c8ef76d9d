/** Every durable write of every transition keeps the invariant. */
module AttemptSteps {
  import opened Wrappers
  import opened AttemptModel
  import opened OperationsLedger
  import opened AttemptTransitions
  import opened AttemptInvariant
  import opened AttemptSafety

  /** The journal in hand is the pending one. */
  predicate IsPending(d: Disk, j: Journal) {
    KeyOf(j) in d.journals && d.journals[KeyOf(j)] == j && WellShaped(j) && PendingKeys(d.journals) == {KeyOf(j)}
  }

  lemma PendingPhase(d: Disk, j: Journal)
    requires IsPending(d, j)
    ensures j.phase in PhasesOf(j.kind) && j.phase != Committed
    ensures j.kind == Abandon && j.phase != Prepared && j.phase != LedgerAppended ==>
              j.phase == TerminalWritten || j.phase == PointerAbandoned
    ensures j.kind == Reopen && j.phase != Prepared ==> j.phase == LedgerAppended || j.phase == PointerReopened
    ensures j.kind == Seal && j.phase != Prepared ==> j.phase == SealWritten || j.phase == PointerSealed
  {
    assert KeyOf(j) in PendingKeys(d.journals);
  }

  predicate StepSafe(env: Environment, r: StepResult) {
    match r
    case Refuse(_) => true
    case Write(next) => Inv(env, next)
    case Commit(next, _) => Inv(env, next)
  }

  lemma EvidenceKeepsInv(env: Environment, d: Disk, attempts: map<Digest, Files>, captures: Captures)
    requires Inv(env, d)
    ensures Inv(env, d.(attempts := attempts, captures := captures))
  {
    var next := d.(attempts := attempts, captures := captures);
    forall k | k in PendingKeys(d.journals)
      ensures Tied(next, Active(next.ledger), next.journals[k])
    {
      TiedFrame(d, next, Active(d.ledger), d.journals[k]);
    }
  }

  lemma PointerKeepsInv(env: Environment, d: Disk, j: Journal, p: Pointer)
    requires Sound(env, d) && IsPending(d, j)
    requires Tied(d.(pointer := Some(p)), Active(d.ledger), j)
    requires PointerOwned(d.(pointer := Some(p))) && SealHeld(d.(pointer := Some(p)), Active(d.ledger))
    ensures Inv(env, d.(pointer := Some(p)))
  {
  }

  /** A found event is the newest entry: the journal's append has happened. */
  lemma EventFound(d: Disk, j: Journal)
    requires WellShaped(j) && j.phase == Prepared && j.kind != Seal
    requires Tied(d, Active(d.ledger), j) && Events(d.ledger, ExpectedEvent(j)) != []
    ensures EventPending(d.ledger, j, true)
    ensures Active(d.ledger) == if j.kind == Begin then Some(j.id) else None
    ensures Tied(d, Active(d.ledger), j.(phase := LedgerAppended))
  {
    if EventPending(d.ledger, j, false) { NoEvents(d.ledger, ExpectedEvent(j)); }
  }

  /** Begin, abandon and reopen leave `prepared` the same way. */
  lemma PreparedStepSafe(env: Environment, d: Disk, j: Journal)
    requires Sound(env, d) && IsPending(d, j) && Tied(d, Active(d.ledger), j)
    requires j.phase == Prepared && j.kind != Seal
    ensures Events(d.ledger, ExpectedEvent(j)) == [] ==> StepSafe(env, AppendEvent(env, d, j))
    ensures Events(d.ledger, ExpectedEvent(j)) != [] ==> Inv(env, Advance(d, j, LedgerAppended))
  {
    if Events(d.ledger, ExpectedEvent(j)) == [] {
      if AppendEvent(env, d, j).Write? { EventKeepsInv(env, d, j, AppendEvent(env, d, j).next.ledger); }
    } else {
      EventFound(d, j);
      AdvanceKeepsInv(env, d, j, LedgerAppended);
    }
  }

  lemma BeginWriteSafe(env: Environment, d: Disk, j: Journal)
    requires Inv(env, d) && IsPending(d, j) && Tied(d, Active(d.ledger), j)
    requires j.kind == Begin
    ensures StepSafe(env, BeginWrite(env, d, j))
  {
    if j.phase == Prepared { PreparedStepSafe(env, d, j); }
    else if j.phase == LedgerAppended { BeginDirectorySafe(env, d, j); }
    else if j.phase == DirectoryCreated { BeginPointerSafe(env, d, j); }
    else { AdvanceKeepsInv(env, d, j, Committed); }
  }

  lemma BeginDirectorySafe(env: Environment, d: Disk, j: Journal)
    requires Inv(env, d) && IsPending(d, j) && Tied(d, Active(d.ledger), j)
    requires j.kind == Begin && j.phase == LedgerAppended
    ensures Inv(env, d.(attempts := d.attempts[j.id := map[]]))
    ensures Inv(env, Advance(d, j, DirectoryCreated))
  {
    EvidenceKeepsInv(env, d, d.attempts[j.id := map[]], d.captures);
    AdvanceKeepsInv(env, d, j, DirectoryCreated);
  }

  lemma BeginPointerSafe(env: Environment, d: Disk, j: Journal)
    requires Sound(env, d) && IsPending(d, j) && Tied(d, Active(d.ledger), j)
    requires j.kind == Begin && j.phase == DirectoryCreated
    ensures var p := OpenPointer(j.id, j.inputs.head);
            Inv(env, d.(pointer := Some(p))) && (d.pointer == Some(p) ==> Inv(env, Advance(d, j, PointerOpen)))
  {
    var p := OpenPointer(j.id, j.inputs.head);
    PointerKeepsInv(env, d, j, p);
    if d.pointer == Some(p) { AdvanceKeepsInv(env, d, j, PointerOpen); }
  }

  lemma TerminalWriteSafe(env: Environment, d: Disk, j: Journal)
    requires Inv(env, d) && IsPending(d, j) && Tied(d, Active(d.ledger), j)
    requires (j.kind == Abandon || j.kind == Reopen) && AttemptInHand(d, j)
    ensures StepSafe(env, TerminalWrite(env, d, j))
  {
    PendingPhase(d, j);
    if j.phase == Prepared { PreparedStepSafe(env, d, j); }
    else if j.kind == Abandon && j.phase == LedgerAppended { MarkerSafe(env, d, j); }
    else { ClosePointerSafe(env, d, j); }
  }

  lemma MarkerSafe(env: Environment, d: Disk, j: Journal)
    requires Inv(env, d) && IsPending(d, j) && Tied(d, Active(d.ledger), j)
    requires j.kind == Abandon && j.phase == LedgerAppended && AttemptInHand(d, j)
    ensures StepSafe(env, WriteMarker(d, j))
  {
    EvidenceKeepsInv(env, d, PutFile(d, j.inputs.attempt, MARKER, MarkerOf(j)).attempts, d.captures);
    AdvanceKeepsInv(env, d, j, TerminalWritten);
  }

  lemma ClosePointerSafe(env: Environment, d: Disk, j: Journal)
    requires Sound(env, d) && IsPending(d, j) && Tied(d, Active(d.ledger), j)
    requires j.kind == Abandon || j.kind == Reopen
    requires j.phase == ClosingPhase(j.kind) || j.phase == ClosedPhase(j.kind)
    requires AttemptInHand(d, j)
    ensures StepSafe(env, ClosePointer(d, j))
  {
    hide Inv, Sound;
    var p := d.pointer.value;
    var expected := ClosedPointer(p, j.kind, j.id, d.attempts[p.attempt]);
    if j.phase == ClosingPhase(j.kind) {
      if p.status == InitialStatus(j.kind) {
        ClosedPointerSafe(env, d, j);
      } else if p == expected {
        AdvanceKeepsInv(env, d, j, ClosedPhase(j.kind));
      }
    } else if p == expected {
      AdvanceKeepsInv(env, d, j, Committed);
    }
  }

  /** Closing the pointer of a pending abandon or reopen keeps the invariant. */
  lemma ClosedPointerSafe(env: Environment, d: Disk, j: Journal)
    requires Sound(env, d) && IsPending(d, j) && Tied(d, Active(d.ledger), j)
    requires (j.kind == Abandon || j.kind == Reopen) && j.phase == ClosingPhase(j.kind) && AttemptInHand(d, j)
    requires d.pointer.value.status == InitialStatus(j.kind)
    ensures Inv(env, d.(pointer := Some(ClosedPointer(d.pointer.value, j.kind, j.id,
      d.attempts[d.pointer.value.attempt]))))
  {
    hide LedgerSound, CommittedHappened, EventsJournaled, TrustedJournal, PresealListed, EventPending, JournalsSound;
    var p := d.pointer.value;
    PointerKeepsInv(env, d, j, ClosedPointer(p, j.kind, j.id, d.attempts[p.attempt]));
  }

  lemma SealWriteSafe(env: Environment, d: Disk, j: Journal)
    requires Inv(env, d) && IsPending(d, j) && Tied(d, Active(d.ledger), j)
    requires j.kind == Seal && AttemptInHand(d, j)
    ensures StepSafe(env, SealWrite(d, j))
  {
    PendingPhase(d, j);
    if j.phase == Prepared {
      SealFileSafe(env, d, j);
    } else {
      SealPointerSafe(env, d, j);
    }
  }

  lemma SealFileSafe(env: Environment, d: Disk, j: Journal)
    requires Inv(env, d) && IsPending(d, j) && Tied(d, Active(d.ledger), j)
    requires j.kind == Seal && j.phase == Prepared && AttemptInHand(d, j)
    ensures StepSafe(env, WriteSeal(d, j))
  {
    EvidenceKeepsInv(env, d, PutFile(d, j.inputs.attempt, SEAL, SealFile(SealOf(j))).attempts, d.captures);
    AdvanceKeepsInv(env, d, j, SealWritten);
  }

  lemma SealPointerSafe(env: Environment, d: Disk, j: Journal)
    requires Sound(env, d) && IsPending(d, j) && Tied(d, Active(d.ledger), j)
    requires j.kind == Seal && (j.phase == SealWritten || j.phase == PointerSealed)
    requires AttemptInHand(d, j)
    ensures StepSafe(env, SealPointer(d, j))
  {
    hide Inv, Sound;
    var p := d.pointer.value;
    var files := d.attempts[p.attempt];
    if SEAL in files {
      var expected := SealedPointer(p, j.id, files[SEAL]);
      if j.phase == SealWritten {
        if p.status == Open {
          SealedPointerSafe(env, d, j, files[SEAL]);
        } else if p == expected {
          AdvanceKeepsInv(env, d, j, PointerSealed);
        }
      } else if p == expected {
        AdvanceKeepsInv(env, d, j, Committed);
      }
    }
  }

  /** Sealing the pointer of a pending seal keeps the invariant, whatever its seal file holds. */
  lemma SealedPointerSafe(env: Environment, d: Disk, j: Journal, file: Content)
    requires Sound(env, d) && IsPending(d, j) && Tied(d, Active(d.ledger), j)
    requires j.kind == Seal && j.phase == SealWritten && AttemptInHand(d, j) && d.pointer.value.status == Open
    ensures Inv(env, d.(pointer := Some(SealedPointer(d.pointer.value, j.id, file))))
  {
    hide LedgerSound, CommittedHappened, EventsJournaled, PresealListed;
    PointerKeepsInv(env, d, j, SealedPointer(d.pointer.value, j.id, file));
  }

  /** One durable write of any command, on any disk that satisfies the invariant. */
  lemma StepKeepsInv(env: Environment, cmd: Command, d: Disk)
    requires Inv(env, d)
    ensures StepSafe(env, Step(env, cmd, d))
  {
    hide Prepare, Resume, LedgerSound, Tied, Quiet, TrustedJournal, PresealListed, CommittedHappened, EventsJournaled,
      PointerOwned, SealHeld;
    var candidate := Candidate(d.journals);
    if candidate.Success? {
      if candidate.value.None? {
        if Prepare(env, cmd, d).Success? { PrepareKeepsInv(env, cmd, d); }
      } else {
        var j := d.journals[candidate.value.value];
        if j.kind == CommandKind(cmd) { ResumeStepSafe(env, cmd, d, j); }
      }
    }
  }

  lemma ResumeStepSafe(env: Environment, cmd: Command, d: Disk, j: Journal)
    requires Inv(env, d) && IsPending(d, j) && j.kind == CommandKind(cmd)
    ensures StepSafe(env, Resume(env, cmd, d, j, KeyOf(j)))
  {
    if RefusalOf(env, cmd, d, j, KeyOf(j)).None? { WriteSafe(env, d, j); }
  }

  lemma WriteSafe(env: Environment, d: Disk, j: Journal)
    requires Inv(env, d) && IsPending(d, j) && (j.kind != Begin ==> AttemptInHand(d, j))
    ensures StepSafe(env, WriteOf(env, d, j))
  {
    assert KeyOf(j) in PendingKeys(d.journals);
    match j.kind
    case Begin => BeginWriteSafe(env, d, j);
    case Abandon => TerminalWriteSafe(env, d, j);
    case Seal => SealWriteSafe(env, d, j);
    case Reopen => TerminalWriteSafe(env, d, j);
  }
}
