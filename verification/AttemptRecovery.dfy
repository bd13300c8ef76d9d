/**
 Recovery. The code validates a pending journal once, when a command starts, and then makes one
 durable write after another. Each of those writes leaves a disk on which the full validation
 passes again; so a crash between any two writes can be resumed, and the resumed run ends where
 the uninterrupted one does.
 */
module AttemptRecovery {
  import opened Wrappers
  import opened AttemptModel
  import opened OperationsLedger
  import opened AttemptTransitions
  import opened AttemptInvariant
  import opened AttemptSafety
  import opened AttemptSteps

  // ---- Every write of a transition leaves its recovery checks passing

  /** The checks pass on the disk that `r` writes, if it writes one. */
  predicate StillValid(env: Environment, cmd: Command, r: StepResult, key: JournalKey, inputs: Inputs) {
    r.Write? ==>
      && key in r.next.journals
      && var j := r.next.journals[key];
      && IsPending(r.next, j) && j.kind == CommandKind(cmd) && j.inputs == inputs
      && RefusalOf(env, cmd, r.next, j, key).None?
  }

  /** Recording a phase keeps the checks passing; begin's also look at the directory. */
  lemma AdvanceStaysValid(env: Environment, cmd: Command, d: Disk, j: Journal, phase: Phase)
    requires JournalsSound(d.journals) && IsPending(d, j) && j.kind == CommandKind(cmd)
    requires phase in PhasesOf(j.kind) && phase != Committed
    requires RefusalOf(env, cmd, d, j, KeyOf(j)).None?
    requires j.kind == Begin && phase in {DirectoryCreated, PointerOpen} ==>
      j.id in d.attempts && d.attempts[j.id] == map[]
    ensures StillValid(env, cmd, Write(Advance(d, j, phase)), KeyOf(j), j.inputs)
  {
    WriteJournals(d.journals, j.(phase := phase));
    match cmd
    case BeginCommand(_, _, _) =>
    case AbandonCommand(_, _, _) => TerminalAdvance(env, cmd, d, j, phase);
    case SealCommand(_, _, _, _) => SealAdvance(env, cmd, d, j, phase);
    case ReopenCommand(_, _, _) => TerminalAdvance(env, cmd, d, j, phase);
  }

  lemma TerminalAdvance(env: Environment, cmd: Command, d: Disk, j: Journal, phase: Phase)
    requires WellShaped(j) && phase in PhasesOf(j.kind)
    requires j.kind == CommandKind(cmd) && (cmd.AbandonCommand? || cmd.ReopenCommand?)
    ensures TerminalRefusal(env, cmd, Advance(d, j, phase), j.(phase := phase), KeyOf(j))
      == TerminalRefusal(env, cmd, d, j, KeyOf(j))
  {
  }

  lemma SealAdvance(env: Environment, cmd: Command, d: Disk, j: Journal, phase: Phase)
    requires WellShaped(j) && phase in PhasesOf(j.kind)
    requires j.kind == Seal && cmd.SealCommand?
    ensures SealRefusal(env, cmd, Advance(d, j, phase), j.(phase := phase), KeyOf(j))
      == SealRefusal(env, cmd, d, j, KeyOf(j))
  {
  }

  /** The checks of the other transitions read the pointer's attempt and HEAD only. */
  lemma PointerStaysValid(env: Environment, cmd: Command, d: Disk, j: Journal, p: Pointer)
    requires IsPending(d, j) && j.kind == CommandKind(cmd) && j.kind != Begin
    requires RefusalOf(env, cmd, d, j, KeyOf(j)).None?
    requires p.attempt == d.pointer.value.attempt && p.head == d.pointer.value.head && PointerShape(p)
    ensures StillValid(env, cmd, Write(d.(pointer := Some(p))), KeyOf(j), j.inputs)
  {
  }

  /** After the append, `_events` finds the one new entry, bound to the prepared tip. */
  lemma AppendedEventFound(env: Environment, d: Disk, j: Journal, ledger: seq<Entry>)
    requires Sound(env, d) && IsPending(d, j) && Tied(d, Active(d.ledger), j)
    requires j.phase == Prepared && j.kind != Seal
    requires Events(d.ledger, ExpectedEvent(j)) == []
    requires AppendEvent(env, d, j) == Write(d.(ledger := ledger))
    ensures ChainOk(env, ledger) && EventsRefusal(ledger, ExpectedEvent(j), j.inputs.tip).None?
  {
    hide GateRefusal, Fold, Events, TrustedJournal, PresealListed, PointerOwned, SealHeld, CommittedHappened,
      EventsJournaled;
    var e := NextEntry(env, d.ledger, "final-attempt", ExpectedEvent(j), "passed");
    assert ledger == d.ledger + [e];
    EventStillPending(env, d, j);
    EventKeepsLedgerSound(env, d, j, e);
    OneEvent(env, ledger, |d.ledger|);
  }

  lemma BeginStaysValid(env: Environment, cmd: Command, d: Disk, j: Journal)
    requires Sound(env, d) && IsPending(d, j) && Tied(d, Active(d.ledger), j)
    requires j.kind == Begin && cmd.BeginCommand?
    requires BeginRefusal(env, cmd, d, j, KeyOf(j)).None?
    ensures StillValid(env, cmd, BeginWrite(env, d, j), KeyOf(j), j.inputs)
  {
    if j.phase == Prepared {
      if Events(d.ledger, ExpectedEvent(j)) == [] {
        var r := AppendEvent(env, d, j);
        if r.Write? { AppendedEventFound(env, d, j, r.next.ledger); }
      } else {
        AdvanceStaysValid(env, cmd, d, j, LedgerAppended);
      }
    } else if j.phase == LedgerAppended {
      if j.id in d.attempts && d.attempts[j.id] == map[] { AdvanceStaysValid(env, cmd, d, j, DirectoryCreated); }
    } else if j.phase == DirectoryCreated {
      AdvanceStaysValid(env, cmd, d, j, PointerOpen);
    }
  }

  lemma TerminalAppendStaysValid(env: Environment, cmd: Command, d: Disk, j: Journal)
    requires Sound(env, d) && IsPending(d, j) && Tied(d, Active(d.ledger), j)
    requires j.kind == CommandKind(cmd) && (cmd.AbandonCommand? || cmd.ReopenCommand?)
    requires TerminalRefusal(env, cmd, d, j, KeyOf(j)).None? && j.phase == Prepared
    ensures StillValid(env, cmd, TerminalAppend(env, d, j), KeyOf(j), j.inputs)
  {
    if Events(d.ledger, ExpectedEvent(j)) == [] {
      var r := AppendEvent(env, d, j);
      if r.Write? {
        AppendedEventFound(env, d, j, r.next.ledger);
        TerminalChecksOnLedger(env, cmd, d, j, r.next.ledger);
      }
    } else {
      AdvanceStaysValid(env, cmd, d, j, LedgerAppended);
    }
  }

  lemma TerminalChecksOnLedger(env: Environment, cmd: Command, d: Disk, j: Journal, ledger: seq<Entry>)
    requires WellShaped(j) && j.kind == CommandKind(cmd) && (cmd.AbandonCommand? || cmd.ReopenCommand?)
    requires TerminalRefusal(env, cmd, d, j, KeyOf(j)).None?
    requires ChainOk(env, ledger) && EventsRefusal(ledger, ExpectedEvent(j), j.inputs.tip).None?
    ensures TerminalRefusal(env, cmd, d.(ledger := ledger), j, KeyOf(j)).None?
  {
  }

  /** Adding a control file changes no inventory that excludes it and no evidence. */
  lemma ControlFileUnseen(files: Files, name: string, content: Content)
    requires name in CONTROL
    ensures InventoryOf(files[name := content], {name}) == InventoryOf(files, {name})
    ensures EvidenceFiles(files[name := content]) == EvidenceFiles(files)
    ensures PresealEvidence(files[name := content]) == PresealEvidence(files)
  {
    assert InventoryOf(files[name := content], {name}).files == InventoryOf(files, {name}).files;
  }

  lemma MarkerStaysValid(env: Environment, cmd: Command, d: Disk, j: Journal)
    requires JournalsSound(d.journals) && IsPending(d, j)
    requires j.kind == Abandon && cmd.AbandonCommand? && j.phase == LedgerAppended
    requires TerminalRefusal(env, cmd, d, j, KeyOf(j)).None?
    ensures StillValid(env, cmd, WriteMarker(d, j), KeyOf(j), j.inputs)
  {
    ControlFileUnseen(d.attempts[j.inputs.attempt], MARKER, MarkerOf(j));
    assert MARKER !in TerminalFailures(Abandon);
    AdvanceStaysValid(env, cmd, d, j, TerminalWritten);
  }

  lemma ClosePointerStaysValid(env: Environment, cmd: Command, d: Disk, j: Journal)
    requires JournalsSound(d.journals) && IsPending(d, j) && SealHeld(d, Active(d.ledger))
    requires j.kind == CommandKind(cmd) && (cmd.AbandonCommand? || cmd.ReopenCommand?)
    requires j.phase == ClosingPhase(j.kind) || j.phase == ClosedPhase(j.kind)
    requires TerminalRefusal(env, cmd, d, j, KeyOf(j)).None?
    ensures StillValid(env, cmd, ClosePointer(d, j), KeyOf(j), j.inputs)
  {
    var p := d.pointer.value;
    if j.phase == ClosingPhase(j.kind) {
      if p.status == InitialStatus(j.kind) {
        PointerStaysValid(env, cmd, d, j, ClosedPointer(p, j.kind, j.id, d.attempts[p.attempt]));
      } else {
        AdvanceStaysValid(env, cmd, d, j, ClosedPhase(j.kind));
      }
    }
  }

  lemma TerminalStaysValid(env: Environment, cmd: Command, d: Disk, j: Journal)
    requires Sound(env, d) && IsPending(d, j) && Tied(d, Active(d.ledger), j)
    requires j.kind == CommandKind(cmd) && (cmd.AbandonCommand? || cmd.ReopenCommand?)
    requires TerminalRefusal(env, cmd, d, j, KeyOf(j)).None?
    ensures StillValid(env, cmd, TerminalWrite(env, d, j), KeyOf(j), j.inputs)
  {
    PendingPhase(d, j);
    if j.phase == Prepared { TerminalAppendStaysValid(env, cmd, d, j); }
    else if j.kind == Abandon && j.phase == LedgerAppended { MarkerStaysValid(env, cmd, d, j); }
    else { ClosePointerStaysValid(env, cmd, d, j); }
  }

  lemma SealFileStaysValid(env: Environment, cmd: Command, d: Disk, j: Journal)
    requires JournalsSound(d.journals) && IsPending(d, j)
    requires j.kind == Seal && cmd.SealCommand? && j.phase == Prepared
    requires SealRefusal(env, cmd, d, j, KeyOf(j)).None?
    ensures StillValid(env, cmd, WriteSeal(d, j), KeyOf(j), j.inputs)
  {
    SealFileKeepsChecks(env, cmd, d, j);
    AdvanceStaysValid(env, cmd, d, j, SealWritten);
  }

  lemma SealFileKeepsChecks(env: Environment, cmd: Command, d: Disk, j: Journal)
    requires WellShaped(j) && j.kind == Seal && cmd.SealCommand?
    requires SealRefusal(env, cmd, d, j, KeyOf(j)).None?
    ensures SealRefusal(env, cmd, PutFile(d, j.inputs.attempt, SEAL, SealFile(SealOf(j))), j, KeyOf(j)).None?
  {
    ControlFileUnseen(d.attempts[j.inputs.attempt], SEAL, SealFile(SealOf(j)));
    assert '/' !in SEAL;
  }

  lemma SealPointerStaysValid(env: Environment, cmd: Command, d: Disk, j: Journal)
    requires JournalsSound(d.journals) && IsPending(d, j)
    requires j.kind == Seal && cmd.SealCommand? && j.phase != Prepared
    requires SealRefusal(env, cmd, d, j, KeyOf(j)).None?
    ensures StillValid(env, cmd, SealPointer(d, j), KeyOf(j), j.inputs)
  {
    var p := d.pointer.value;
    if SEAL in d.attempts[p.attempt] && j.phase == SealWritten {
      if p.status == Open {
        PointerStaysValid(env, cmd, d, j, SealedPointer(p, j.id, d.attempts[p.attempt][SEAL]));
      } else {
        AdvanceStaysValid(env, cmd, d, j, PointerSealed);
      }
    }
  }

  /** Recovery checks that pass before a write pass after it. */
  lemma WriteStaysValid(env: Environment, cmd: Command, d: Disk, j: Journal)
    requires Inv(env, d) && IsPending(d, j) && j.kind == CommandKind(cmd)
    requires RefusalOf(env, cmd, d, j, KeyOf(j)).None?
    ensures StillValid(env, cmd, WriteOf(env, d, j), KeyOf(j), j.inputs)
  {
    assert KeyOf(j) in PendingKeys(d.journals);
    match cmd
    case BeginCommand(_, _, _) => BeginStaysValid(env, cmd, d, j);
    case AbandonCommand(_, _, _) => TerminalStaysValid(env, cmd, d, j);
    case SealCommand(_, _, _, _) =>
      if j.phase == Prepared { SealFileStaysValid(env, cmd, d, j); } else { SealPointerStaysValid(env, cmd, d, j); }
    case ReopenCommand(_, _, _) => TerminalStaysValid(env, cmd, d, j);
  }
}
