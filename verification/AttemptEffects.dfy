/**
 What a whole transition does to the disk, and exactly when one that was prepared completes.
 The prepared journal is written before the ledger is asked, so a begin, abandon or reopen that
 the ledger then refuses stays pending.
 */
module AttemptEffects {
  import opened Wrappers
  import opened AttemptModel
  import opened OperationsLedger
  import opened AttemptTransitions
  import opened AttemptInvariant
  import opened AttemptSafety
  import opened AttemptSteps
  import opened AttemptRecovery
  import opened AttemptRuns
  import opened AttemptTheorems

  predicate LedgerAccepts(env: Environment, ledger: seq<Entry>, j: Journal)
    requires ledger != [] && WellShaped(j) && j.kind != Seal
  {
    env.admissible("final-attempt", ExpectedEvent(j), "passed") && !TipIsPassedSeal(ledger)
  }

  lemma InvSound(env: Environment, d: Disk)
    requires Inv(env, d)
    ensures Sound(env, d) && JournalsSound(d.journals) && LedgerSound(env, d.ledger) && d.ledger != []
  {
  }

  function EventEntry(env: Environment, ledger: seq<Entry>, j: Journal): Entry
    requires ledger != [] && WellShaped(j) && j.kind != Seal
  {
    NextEntry(env, ledger, "final-attempt", ExpectedEvent(j), "passed")
  }

  /** The private append succeeds exactly when the ledger itself accepts the entry. */
  lemma PrivateAppend(env: Environment, d: Disk, j: Journal)
    requires Sound(env, d) && IsPending(d, j) && Tied(d, Active(d.ledger), j)
    requires j.phase == Prepared && j.kind != Seal && Events(d.ledger, ExpectedEvent(j)) == []
    ensures LedgerAccepts(env, d.ledger, j) ==>
      AppendEvent(env, d, j) == Write(d.(ledger := d.ledger + [EventEntry(env, d.ledger, j)]))
    ensures !LedgerAccepts(env, d.ledger, j) ==> AppendEvent(env, d, j).Refuse?
  {
    CandidateIs(d.journals, KeyOf(j));
    PendingJournalIs(d.journals);
    EventStillPending(env, d, j);
    GateAdmits(d, j);
  }

  lemma GateAdmits(d: Disk, j: Journal)
    requires Fold(d.ledger).Some? && IsPending(d, j) && Tied(d, Active(d.ledger), j) && PointerOwned(d)
    requires j.id == Digest(InputsDoc(j.inputs)) && PendingJournal(d.journals) == Success(Some(KeyOf(j)))
    requires j.phase == Prepared && j.kind != Seal && EventPending(d.ledger, j, false)
    requires Active(d.ledger) == if j.kind == Begin then None else Some(j.inputs.attempt)
    ensures GateRefusal(d, ExpectedEvent(j), "passed", true).None?
  {
    hide PendingJournal;
  }

  /** Preparing, validating, and the writes that follow. */
  lemma InvokePrepared(env: Environment, cmd: Command, d: Disk, j: Journal, n: nat)
    requires JournalsSound(d.journals) && PendingKeys(d.journals) == {}
    requires env.contract.plan == cmd.plan && env.contract.round == cmd.round
    requires Prepare(env, cmd, d) == Success(j)
    ensures Invoke(env, cmd, d, n + 1) ==
              match RefusalOf(env, cmd, PutJournal(d, j), j, KeyOf(j))
              case Some(why) => RunResult(PutJournal(d, j), Refused(why))
              case None => Continue(env, PutJournal(d, j), KeyOf(j), n)
  {
    hide RefusalOf, Continue;
    CandidateIsNone(d.journals);
    assert PlanMatches(j.inputs, cmd);
  }

  /** Eight writes are enough for every transition: a larger budget changes nothing. */
  lemma EnoughWrites(env: Environment, cmd: Command, d: Disk, n: nat)
    requires Inv(env, d) && n >= 8 && !Invoke(env, cmd, d, 8).outcome.Interrupted?
    ensures Invoke(env, cmd, d, n) == Invoke(env, cmd, d, 8)
  {
    hide Inv, Invoke, Step;
    ValidatedOnce(env, cmd, d, 8);
    ValidatedOnce(env, cmd, d, n);
    RunExtends(env, cmd, d, 8, n);
  }

  // ---- begin

  function BegunDisk(env: Environment, d: Disk, j: Journal): Disk
    requires d.ledger != [] && WellShaped(j) && j.kind == Begin
  {
    d.(ledger := d.ledger + [EventEntry(env, d.ledger, j)],
       attempts := d.attempts[j.id := map[]],
       pointer := Some(OpenPointer(j.id, j.inputs.head)),
       journals := d.journals[KeyOf(j) := j.(phase := Committed)])
  }

  lemma PreparedIsValid(env: Environment, cmd: Command, d: Disk)
    requires Inv(env, d) && PendingKeys(d.journals) == {} && Prepare(env, cmd, d).Success?
    ensures var j := Prepare(env, cmd, d).value;
            && KeyOf(j) !in d.journals && j.id == Digest(InputsDoc(j.inputs))
            && Inv(env, PutJournal(d, j)) && IsPending(PutJournal(d, j), j)
            && Tied(PutJournal(d, j), Active(d.ledger), j)
            && (j.kind != Seal ==> Events(d.ledger, ExpectedEvent(j)) == [])
  {
    var j := Prepare(env, cmd, d).value;
    PrepareKeepsInv(env, cmd, d);
    PrepareTies(env, cmd, d);
    WriteJournals(d.journals, j);
    TiedFrame(d, PutJournal(d, j), Active(d.ledger), j);
    if j.kind != Seal {
      EventAbsent(env, cmd, d, j);
    }
  }

  lemma EventAbsent(env: Environment, cmd: Command, d: Disk, j: Journal)
    requires LedgerSound(env, d.ledger) && Prepare(env, cmd, d) == Success(j) && j.kind != Seal
    requires j.id == Digest(InputsDoc(j.inputs))
    ensures Events(d.ledger, ExpectedEvent(j)) == []
  {
    NotYetHappened(env, d.ledger, j);
    NoEvents(d.ledger, ExpectedEvent(j));
  }

  /** The writes of begin, one after the other, from its prepared journal. */
  lemma BeginWrites(env: Environment, d: Disk, j: Journal, d1: Disk)
    requires d.ledger != [] && WellShaped(j) && j.kind == Begin && j.phase == Prepared
    requires d1 == PutJournal(d, j) && j.payload.prior == PointerHash(d.pointer) && Closed(d.pointer)
      && j.id !in d.attempts
    requires Events(d.ledger, ExpectedEvent(j)) == []
    requires LedgerAccepts(env, d.ledger, j) ==>
      AppendEvent(env, d1, j) == Write(d1.(ledger := d.ledger + [EventEntry(env, d.ledger, j)]))
    requires !LedgerAccepts(env, d.ledger, j) ==> AppendEvent(env, d1, j).Refuse?
    requires Events(d.ledger + [EventEntry(env, d.ledger, j)], ExpectedEvent(j)) != []
    ensures Continue(env, d1, KeyOf(j), 7) == if LedgerAccepts(env, d.ledger, j)
              then RunResult(BegunDisk(env, d, j), Completed(OpenPointer(j.id, j.inputs.head)))
              else RunResult(d1, Refused(AppendEvent(env, d1, j).why))
  {
    hide AppendEvent, Events;
    if LedgerAccepts(env, d.ledger, j) {
      var d2 := d1.(ledger := d.ledger + [EventEntry(env, d.ledger, j)]);
      var d3 := Advance(d2, j, LedgerAppended);
      var d4 := d3.(attempts := d3.attempts[j.id := map[]]);
      var d5 := Advance(d4, j, DirectoryCreated);
      var d6 := d5.(pointer := Some(OpenPointer(j.id, j.inputs.head)));
      var d7 := Advance(d6, j, PointerOpen);
      assert Continue(env, d1, KeyOf(j), 7) == Continue(env, d2, KeyOf(j), 6);
      assert Continue(env, d2, KeyOf(j), 6) == Continue(env, d3, KeyOf(j), 5);
      assert Continue(env, d3, KeyOf(j), 5) == Continue(env, d4, KeyOf(j), 4);
      assert Continue(env, d4, KeyOf(j), 4) == Continue(env, d5, KeyOf(j), 3);
      assert Continue(env, d5, KeyOf(j), 3) == Continue(env, d6, KeyOf(j), 2);
      assert Continue(env, d6, KeyOf(j), 2) == Continue(env, d7, KeyOf(j), 1);
      assert Advance(d7, j, Committed).journals == d.journals[KeyOf(j) := j.(phase := Committed)];
    }
  }

  /**
   A begin that prepares its journal appends exactly one started entry, creates an empty attempt
   directory and opens the pointer to it, if and only if the ledger accepts that entry.
   */
  lemma BeginCompletes(env: Environment, cmd: Command, d: Disk)
    requires Inv(env, d) && PendingKeys(d.journals) == {}
    requires cmd.BeginCommand? && env.contract.plan == cmd.plan && env.contract.round == cmd.round
    requires PrepareBegin(env, cmd, d).Success?
    ensures var j := PrepareBegin(env, cmd, d).value;
            var r := Invoke(env, cmd, d, 8);
            if LedgerAccepts(env, d.ledger, j)
            then r == RunResult(BegunDisk(env, d, j), Completed(OpenPointer(j.id, j.inputs.head)))
            else r.disk == PutJournal(d, j) && r.outcome.Refused?
  {
    hide Append, GateRefusal, Continue, Invoke, Inv, Sound, JournalsSound, IsPending, LedgerAccepts, BegunDisk;
    var j := PrepareBegin(env, cmd, d).value;
    var d1 := PutJournal(d, j);
    InvSound(env, d);
    PreparedIsValid(env, cmd, d);
    InvSound(env, d1);
    PrivateAppend(env, d1, j);
    assert BeginRefusal(env, cmd, d1, j, KeyOf(j)).None?;
    InvokePrepared(env, cmd, d, j, 7);
    assert Matches(EventEntry(env, d.ledger, j), ExpectedEvent(j));
    BeginWrites(env, d, j, d1);
  }

  /** On a new root the first begin completes exactly when its entry is admissible and its directory is not taken. */
  lemma FirstBeginCompletes(env: Environment, cmd: Command, d: Disk)
    requires Initial(env, d) && cmd.BeginCommand? && env.contract.plan == cmd.plan && env.contract.round == cmd.round
    ensures var id := Digest(InputsDoc(BeginInputs(cmd.head, cmd.plan, cmd.round, Tip(d.ledger))));
            Invoke(env, cmd, d, 8).outcome == Completed(OpenPointer(id, cmd.head)) <==>
              id !in d.attempts && env.admissible("final-attempt", Started(id, cmd.head), "passed")
  {
    InitialInv(env, d);
    FirstTip(env, d);
    var prepared := PrepareBegin(env, cmd, d);
    if prepared.Success? {
      BeginCompletes(env, cmd, d);
    } else {
      CandidateIsNone(d.journals);
    }
  }

  lemma FirstTip(env: Environment, d: Disk)
    requires Initial(env, d)
    ensures !TipIsPassedSeal(d.ledger)
  {
    assert LinkOk(env, d.ledger, 0);
    assert |"bootstrap"| == 9 && |"seal"| == 4;
  }

  // ---- abandon and reopen

  function ClosedDisk(env: Environment, d: Disk, j: Journal): Disk
    requires d.ledger != [] && WellShaped(j) && (j.kind == Abandon || j.kind == Reopen) && AttemptInHand(d, j)
  {
    var files := if j.kind == Abandon then d.attempts[j.inputs.attempt][MARKER := MarkerOf(j)]
      else d.attempts[j.inputs.attempt];
    d.(ledger := d.ledger + [EventEntry(env, d.ledger, j)],
       attempts := d.attempts[j.inputs.attempt := files],
       pointer := Some(ClosedPointer(d.pointer.value, j.kind, j.id, files)),
       journals := d.journals[KeyOf(j) := j.(phase := Committed)])
  }

  lemma AbandonWrites(env: Environment, d: Disk, j: Journal, d1: Disk)
    requires d.ledger != [] && WellShaped(j) && j.kind == Abandon && j.phase == Prepared && AttemptInHand(d, j)
    requires d1 == PutJournal(d, j) && d.pointer.value.status == Open
      && j.payload.pointerSha == Digest(PointerDoc(d.pointer.value))
    requires MARKER !in d.attempts[j.inputs.attempt]
    requires Events(d.ledger, ExpectedEvent(j)) == []
    requires LedgerAccepts(env, d.ledger, j) ==>
      AppendEvent(env, d1, j) == Write(d1.(ledger := d.ledger + [EventEntry(env, d.ledger, j)]))
    requires !LedgerAccepts(env, d.ledger, j) ==> AppendEvent(env, d1, j).Refuse?
    requires Events(d.ledger + [EventEntry(env, d.ledger, j)], ExpectedEvent(j)) != []
    ensures Continue(env, d1, KeyOf(j), 7) == if LedgerAccepts(env, d.ledger, j)
              then RunResult(ClosedDisk(env, d, j), Completed(ClosedDisk(env, d, j).pointer.value))
              else RunResult(d1, Refused(AppendEvent(env, d1, j).why))
  {
    hide AppendEvent, Events, InventoryOf;
    if LedgerAccepts(env, d.ledger, j) {
      var d2 := d1.(ledger := d.ledger + [EventEntry(env, d.ledger, j)]);
      var d3 := Advance(d2, j, LedgerAppended);
      var d4 := PutFile(d3, j.inputs.attempt, MARKER, MarkerOf(j));
      var d5 := Advance(d4, j, TerminalWritten);
      var closed := ClosedPointer(d.pointer.value, j.kind, j.id, d4.attempts[j.inputs.attempt]);
      var d6 := d5.(pointer := Some(closed));
      var d7 := Advance(d6, j, PointerAbandoned);
      assert Continue(env, d1, KeyOf(j), 7) == Continue(env, d2, KeyOf(j), 6);
      assert Continue(env, d2, KeyOf(j), 6) == Continue(env, d3, KeyOf(j), 5);
      assert Continue(env, d3, KeyOf(j), 5) == Continue(env, d4, KeyOf(j), 4);
      assert Continue(env, d4, KeyOf(j), 4) == Continue(env, d5, KeyOf(j), 3);
      assert Continue(env, d5, KeyOf(j), 3) == Continue(env, d6, KeyOf(j), 2);
      assert Continue(env, d6, KeyOf(j), 2) == Continue(env, d7, KeyOf(j), 1);
      assert Advance(d7, j, Committed).journals == d.journals[KeyOf(j) := j.(phase := Committed)];
    }
  }

  lemma ReopenWrites(env: Environment, d: Disk, j: Journal, d1: Disk)
    requires d.ledger != [] && WellShaped(j) && j.kind == Reopen && j.phase == Prepared && AttemptInHand(d, j)
    requires d1 == PutJournal(d, j) && d.pointer.value.status == Sealed
      && j.payload.pointerSha == Digest(PointerDoc(d.pointer.value))
    requires Events(d.ledger, ExpectedEvent(j)) == []
    requires LedgerAccepts(env, d.ledger, j) ==>
      AppendEvent(env, d1, j) == Write(d1.(ledger := d.ledger + [EventEntry(env, d.ledger, j)]))
    requires !LedgerAccepts(env, d.ledger, j) ==> AppendEvent(env, d1, j).Refuse?
    requires Events(d.ledger + [EventEntry(env, d.ledger, j)], ExpectedEvent(j)) != []
    ensures Continue(env, d1, KeyOf(j), 7) == if LedgerAccepts(env, d.ledger, j)
              then RunResult(ClosedDisk(env, d, j), Completed(ClosedDisk(env, d, j).pointer.value))
              else RunResult(d1, Refused(AppendEvent(env, d1, j).why))
  {
    hide AppendEvent, Events, InventoryOf;
    if LedgerAccepts(env, d.ledger, j) {
      var d2 := d1.(ledger := d.ledger + [EventEntry(env, d.ledger, j)]);
      var d3 := Advance(d2, j, LedgerAppended);
      var closed := ClosedPointer(d.pointer.value, j.kind, j.id, d.attempts[j.inputs.attempt]);
      var d4 := d3.(pointer := Some(closed));
      var d5 := Advance(d4, j, PointerReopened);
      assert Continue(env, d1, KeyOf(j), 7) == Continue(env, d2, KeyOf(j), 6);
      assert Continue(env, d2, KeyOf(j), 6) == Continue(env, d3, KeyOf(j), 5);
      assert Continue(env, d3, KeyOf(j), 5) == Continue(env, d4, KeyOf(j), 4);
      assert Continue(env, d4, KeyOf(j), 4) == Continue(env, d5, KeyOf(j), 3);
      assert Advance(d5, j, Committed).journals == d.journals[KeyOf(j) := j.(phase := Committed)];
      assert d.attempts[j.inputs.attempt := d.attempts[j.inputs.attempt]] == d.attempts;
    }
  }

  /**
   An abandon or reopen that prepares its journal appends exactly one entry and closes the
   pointer over the attempt's frozen inventory, if and only if the ledger accepts the entry and,
   for abandon, no marker file was already there.
   */
  lemma TerminalCompletes(env: Environment, cmd: Command, d: Disk)
    requires Inv(env, d) && PendingKeys(d.journals) == {}
    requires cmd.AbandonCommand? || cmd.ReopenCommand?
    requires env.contract.plan == cmd.plan && env.contract.round == cmd.round
    requires PrepareTerminal(env, CommandKind(cmd), cmd, d).Success?
    ensures var j := PrepareTerminal(env, CommandKind(cmd), cmd, d).value;
            var r := Invoke(env, cmd, d, 8);
            && AttemptInHand(d, j)
            && if LedgerAccepts(env, d.ledger, j) && (j.kind == Abandon ==> MARKER !in d.attempts[j.inputs.attempt])
               then r == RunResult(ClosedDisk(env, d, j), Completed(ClosedDisk(env, d, j).pointer.value))
               else r.disk == PutJournal(d, j) && r.outcome.Refused?
  {
    hide Append, GateRefusal, Tied, Continue, Invoke, TerminalRefusal, PrepareTerminal, Inv, Sound, LedgerSound,
        JournalsSound, IsPending, LedgerAccepts, ClosedDisk;
    var j := PrepareTerminal(env, CommandKind(cmd), cmd, d).value;
    var d1 := PutJournal(d, j);
    InvSound(env, d);
    PreparedIsValid(env, cmd, d);
    InvSound(env, d1);
    PrivateAppend(env, d1, j);
    TerminalPrepared(env, cmd, d);
    InvokePrepared(env, cmd, d, j, 7);
    assert Matches(EventEntry(env, d.ledger, j), ExpectedEvent(j));
    if TerminalRefusal(env, cmd, d1, j, KeyOf(j)).None? {
      if j.kind == Abandon { AbandonWrites(env, d, j, d1); } else { ReopenWrites(env, d, j, d1); }
    }
  }

  /** A freshly prepared abandon or reopen passes its recovery checks unless a marker is in the way. */
  lemma TerminalPrepared(env: Environment, cmd: Command, d: Disk)
    requires LedgerSound(env, d.ledger)
    requires cmd.AbandonCommand? || cmd.ReopenCommand?
    requires PrepareTerminal(env, CommandKind(cmd), cmd, d).Success?
    ensures var j := PrepareTerminal(env, CommandKind(cmd), cmd, d).value;
            && AttemptInHand(d, j)
            && d.pointer.value.status == InitialStatus(j.kind)
              && j.payload.pointerSha == Digest(PointerDoc(d.pointer.value))
            && (TerminalRefusal(env, cmd, PutJournal(d, j), j, KeyOf(j)).None? <==>
                  (j.kind == Abandon ==> MARKER !in d.attempts[j.inputs.attempt]))
  {
    var j := PrepareTerminal(env, CommandKind(cmd), cmd, d).value;
    EventAbsent(env, cmd, d, j);
    var files := d.attempts[j.inputs.attempt];
    assert InventoryOf(files, {MARKER}) == InventoryOf(files, {}) <==> MARKER !in files by {
      assert MARKER in files ==>
        MARKER in InventoryOf(files, {}).files && MARKER !in InventoryOf(files, {MARKER}).files;
      assert MARKER !in files ==> InventoryOf(files, {}).files == InventoryOf(files, {MARKER}).files;
    }
  }

  // ---- seal

  function SealedDisk(d: Disk, j: Journal): Disk
    requires WellShaped(j) && j.kind == Seal && AttemptInHand(d, j)
  {
    d.(attempts := d.attempts[j.inputs.attempt := d.attempts[j.inputs.attempt][SEAL := SealFile(SealOf(j))]],
       pointer := Some(SealedPointer(d.pointer.value, j.id, SealFile(SealOf(j)))),
       journals := d.journals[KeyOf(j) := j.(phase := Committed)])
  }

  lemma SealWrites(env: Environment, d: Disk, j: Journal, d1: Disk)
    requires WellShaped(j) && j.kind == Seal && j.phase == Prepared && AttemptInHand(d, j)
    requires d1 == PutJournal(d, j) && d.pointer.value.status == Open
      && j.payload.pointerSha == Digest(PointerDoc(d.pointer.value))
    requires SEAL !in d.attempts[j.inputs.attempt] && j.payload.ledgerSha == Digest(LedgerDoc(d.ledger))
    ensures Continue(env, d1, KeyOf(j), 7) == RunResult(SealedDisk(d, j), Completed(SealedDisk(d, j).pointer.value))
  {
    var d2 := PutFile(d1, j.inputs.attempt, SEAL, SealFile(SealOf(j)));
    var d3 := Advance(d2, j, SealWritten);
    var sealed := SealedPointer(d.pointer.value, j.id, SealFile(SealOf(j)));
    var d4 := d3.(pointer := Some(sealed));
    var d5 := Advance(d4, j, PointerSealed);
    assert Continue(env, d1, KeyOf(j), 7) == Continue(env, d2, KeyOf(j), 6);
    assert Continue(env, d2, KeyOf(j), 6) == Continue(env, d3, KeyOf(j), 5);
    assert Continue(env, d3, KeyOf(j), 5) == Continue(env, d4, KeyOf(j), 4);
    assert Continue(env, d4, KeyOf(j), 4) == Continue(env, d5, KeyOf(j), 3);
    assert Advance(d5, j, Committed).journals == d.journals[KeyOf(j) := j.(phase := Committed)];
  }

  /** A seal that prepares its journal always completes, and leaves the ledger as it was. */
  lemma SealCompletes(env: Environment, cmd: Command, d: Disk)
    requires Inv(env, d) && PendingKeys(d.journals) == {}
    requires cmd.SealCommand? && env.contract.plan == cmd.plan && env.contract.round == cmd.round
    requires PrepareSeal(env, cmd, d).Success?
    ensures var j := PrepareSeal(env, cmd, d).value;
            && AttemptInHand(d, j)
            && Invoke(env, cmd, d, 8) == RunResult(SealedDisk(d, j), Completed(SealedDisk(d, j).pointer.value))
  {
    var j := PrepareSeal(env, cmd, d).value;
    var d1 := PutJournal(d, j);
    hide Continue, Invoke, SealRefusal, PrepareSeal, SealedDisk;
    SealPrepared(env, cmd, d);
    InvokePrepared(env, cmd, d, j, 7);
    SealWrites(env, d, j, d1);
  }

  lemma SealPrepared(env: Environment, cmd: Command, d: Disk)
    requires cmd.SealCommand? && PrepareSeal(env, cmd, d).Success?
    ensures var j := PrepareSeal(env, cmd, d).value;
            && AttemptInHand(d, j)
            && d.pointer.value.status == Open && j.payload.pointerSha == Digest(PointerDoc(d.pointer.value))
            && SEAL !in d.attempts[j.inputs.attempt] && j.payload.ledgerSha == Digest(LedgerDoc(d.ledger))
            && SealRefusal(env, cmd, PutJournal(d, j), j, KeyOf(j)).None?
  {
    hide PresealFilesOk, Flat, ChainOk, InventoryOf, PresealEvidence;
    PresealHasNoSeal(d.attempts[PrepareSeal(env, cmd, d).value.inputs.attempt]);
  }

  lemma PresealHasNoSeal(files: Files)
    requires PresealFilesOk(files)
    ensures SEAL !in files && Flat(files)
    ensures InventoryOf(files, {}) == InventoryOf(files, {SEAL})
  {
    PresealNames(files);
    assert SEAL !in files;
    assert InventoryOf(files, {}).files == InventoryOf(files, {SEAL}).files;
  }
}
