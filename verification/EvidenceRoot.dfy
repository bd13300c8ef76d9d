/**
 The commands as they run: an object whose fields are updated write by write. `budget` is the
 number of durable writes before the crash hook raises. Each command is proved to do exactly
 what `Invoke` says, and to keep the invariant wherever it is stopped.
 */
module EvidenceRoot {
  import opened Wrappers
  import opened AttemptModel
  import opened OperationsLedger
  import opened AttemptTransitions
  import opened AttemptInvariant
  import opened AttemptSafety
  import opened AttemptSteps
  import opened AttemptRecovery
  import opened AttemptRuns
  import opened AttemptTheorems
  import opened AttemptEffects

  /** How far a run has come: stopped with an outcome, or about to continue with the writes left. */
  datatype Progress = Stopped(outcome: Outcome) | Running(left: nat)

  /** From `before`, the writes made so far lead to `after`. */
  ghost predicate Reaches(env: Environment, before: Disk, budget: nat, key: JournalKey, after: Disk, p: Progress) {
    Continue(env, before, key, budget) ==
      match p
      case Stopped(outcome) => RunResult(after, outcome)
      case Running(left) => Continue(env, after, key, left)
  }

  /** One write that the code makes is the write that `Continue` makes. */
  lemma WriteReaches(env: Environment, before: Disk, budget: nat, j: Journal, d: Disk, left: nat, next: Disk)
    requires Reaches(env, before, budget, KeyOf(j), d, Running(left))
    requires InHand(d, j) && WriteOf(env, d, j) == Write(next)
    ensures left == 0 ==> Reaches(env, before, budget, KeyOf(j), d, Stopped(Interrupted))
    ensures left > 0 ==> Reaches(env, before, budget, KeyOf(j), next, Running(left - 1))
  {
    hide WriteOf, InHand;
    ContinueStep(env, d, j, Write(next), left);
  }

  lemma RefusalReaches(env: Environment, before: Disk, budget: nat, j: Journal, d: Disk, left: nat, why: Refusal)
    requires Reaches(env, before, budget, KeyOf(j), d, Running(left))
    requires InHand(d, j) && WriteOf(env, d, j) == Refuse(why)
    ensures Reaches(env, before, budget, KeyOf(j), d, Stopped(Refused(why)))
  {
    hide WriteOf, InHand;
    ContinueStep(env, d, j, Refuse(why), left);
  }

  lemma CommitReaches(env: Environment, before: Disk, budget: nat, j: Journal, d: Disk, left: nat, next: Disk,
      result: Pointer)
    requires Reaches(env, before, budget, KeyOf(j), d, Running(left))
    requires InHand(d, j) && WriteOf(env, d, j) == Commit(next, result)
    ensures left == 0 ==> Reaches(env, before, budget, KeyOf(j), d, Stopped(Interrupted))
    ensures left > 0 ==> Reaches(env, before, budget, KeyOf(j), next, Stopped(Completed(result)))
  {
    hide WriteOf, InHand;
    ContinueStep(env, d, j, Commit(next, result), left);
  }

  /** The pointer is still the one the journal was prepared over. */
  predicate PointerAsPrepared(d: Disk, j: Journal)
    requires WellShaped(j) && j.kind != Seal
  {
    if j.kind == Begin then PointerHash(d.pointer) == j.payload.prior
    else
      && AttemptInHand(d, j) && d.pointer.value.status == InitialStatus(j.kind)
      && j.payload.pointerSha == Digest(PointerDoc(d.pointer.value))
  }

  lemma PreparedWrites(env: Environment, d: Disk, j: Journal)
    requires WellShaped(j) && j.kind != Seal && j.phase == Prepared && PointerAsPrepared(d, j)
    ensures WriteOf(env, d, j) == if Events(d.ledger, ExpectedEvent(j)) == [] then AppendEvent(env, d, j)
      else Write(Advance(d, j, LedgerAppended))
  {
    hide Append, Events, InventoryOf;
  }

  lemma SingletonIs(s: set<JournalKey>, x: JournalKey)
    requires x in s && |s| <= 1
    ensures s == {x} && |s| == 1 && TheMember(s) == x
  {
    SubsetSize({x}, s);
    forall y | y in s ensures y == x { SingletonMember(s, x, y); }
    assert TheMember(s) in s;
  }

  lemma TwoPending(s: set<JournalKey>, x: JournalKey, y: JournalKey)
    requires x in s && y in s && x != y
    ensures |s| > 1
  {
    SubsetSize({x, y}, s);
  }

  lemma AppendedMatches(env: Environment, d: Disk, j: Journal, appended: seq<Entry>)
    requires WellShaped(j) && j.kind != Seal
    requires Append(env, d, "final-attempt", ExpectedEvent(j), "passed", Some(j.inputs.tip), true) == Success(appended)
    ensures Events(appended, ExpectedEvent(j)) != []
  {
    assert Matches(appended[|appended|-1], ExpectedEvent(j));
  }

  /** A begin journal was prepared over a closed pointer, never over the one it is to write. */
  predicate PriorIsOther(j: Journal)
    requires WellShaped(j)
  {
    j.kind == Begin ==> j.payload.prior != Some(Digest(PointerDoc(OpenPointer(j.id, j.inputs.head))))
  }

  lemma BeginPointerChanged(env: Environment, d: Disk, j: Journal)
    requires WellShaped(j) && j.kind == Begin && j.phase == Prepared && PointerHash(d.pointer) != j.payload.prior
    ensures WriteOf(env, d, j) == Refuse(PointerChanged)
  {
  }

  lemma TerminalPointerChanged(env: Environment, d: Disk, j: Journal)
    requires WellShaped(j) && (j.kind == Abandon || j.kind == Reopen) && j.phase == Prepared && AttemptInHand(d, j)
    requires !PointerAsPrepared(d, j)
    ensures WriteOf(env, d, j) == Refuse(PointerChanged)
  {
    hide Append, InventoryOf;
  }

  lemma TerminalMarkerChanged(env: Environment, d: Disk, j: Journal)
    requires WellShaped(j) && j.kind == Abandon && j.phase != Prepared && j.phase != LedgerAppended
      && AttemptInHand(d, j)
    requires !MarkerExact(d, j)
    ensures WriteOf(env, d, j) == Refuse(MarkerNotExact)
  {
    hide Append, InventoryOf;
  }

  lemma SealFileGone(env: Environment, d: Disk, j: Journal)
    requires WellShaped(j) && j.kind == Seal && j.phase != Prepared && AttemptInHand(d, j)
    requires SEAL !in d.attempts[j.inputs.attempt]
    ensures WriteOf(env, d, j) == Refuse(SealFileMissing)
  {
  }

  lemma PendingIsOther(env: Environment, d: Disk, key: JournalKey)
    requires Inv(env, d) && key in PendingKeys(d.journals)
    ensures WellShaped(d.journals[key]) && KeyOf(d.journals[key]) == key && PriorIsOther(d.journals[key])
  {
  }

  lemma PreparedIsOther(env: Environment, cmd: Command, d: Disk)
    requires Inv(env, d) && PendingKeys(d.journals) == {} && Prepare(env, cmd, d).Success?
    ensures PriorIsOther(Prepare(env, cmd, d).value)
  {
    PrepareTies(env, cmd, d);
  }

  /** Nothing is pending, the plan is the contract's, and the hook leaves the command writes enough. */
  predicate Quiescent(env: Environment, cmd: Command, d: Disk, budget: nat) {
    budget >= 8 && PendingKeys(d.journals) == {} && env.contract.plan == cmd.plan && env.contract.round == cmd.round
  }

  /** What an abandon or reopen that can prepare its journal leaves. */
  predicate Closes(env: Environment, cmd: Command, d: Disk, budget: nat, after: Disk, r: Outcome)
    requires cmd.AbandonCommand? || cmd.ReopenCommand?
  {
    Quiescent(env, cmd, d, budget) && PrepareTerminal(env, CommandKind(cmd), cmd, d).Success? ==>
      var j := PrepareTerminal(env, CommandKind(cmd), cmd, d).value;
      && d.ledger != [] && AttemptInHand(d, j)
      && if LedgerAccepts(env, d.ledger, j) && (j.kind == Abandon ==> MARKER !in d.attempts[j.inputs.attempt])
         then after == ClosedDisk(env, d, j) && r == Completed(ClosedDisk(env, d, j).pointer.value)
         else after == PutJournal(d, j) && r.Refused?
  }

  lemma InvokeCloses(env: Environment, cmd: Command, d: Disk, budget: nat)
    requires Inv(env, d) && (cmd.AbandonCommand? || cmd.ReopenCommand?)
    ensures Closes(env, cmd, d, budget, Invoke(env, cmd, d, budget).disk, Invoke(env, cmd, d, budget).outcome)
  {
    hide Inv, Invoke, PrepareTerminal, LedgerAccepts, ClosedDisk;
    if Quiescent(env, cmd, d, budget) && PrepareTerminal(env, CommandKind(cmd), cmd, d).Success? {
      InvSound(env, d);
      TerminalCompletes(env, cmd, d);
      EnoughWrites(env, cmd, d, budget);
    }
  }

  class Root {
    const env: Environment
    var ledger: seq<Entry>
    var pointer: Option<Pointer>
    var journals: map<JournalKey, Journal>
    var attempts: map<Digest, Files>
    var captures: Captures

    function Snapshot(): Disk
      reads this
    {
      Disk(ledger, pointer, journals, attempts, captures)
    }

    ghost predicate Valid()
      reads this
    {
      Inv(env, Snapshot())
    }

    constructor (env: Environment, genesis: Entry)
      requires IsGenesis(genesis) && genesis.sequence == 0 && genesis.previous == None
      ensures Valid() && this.env == env
      ensures Snapshot() == Disk([genesis], None, map[], map[], map[])
    {
      this.env := env;
      ledger := [genesis];
      pointer := None;
      journals := map[];
      attempts := map[];
      captures := map[];
      new;
      assert LinkOk(env, [genesis], 0);
      InitialInv(env, Snapshot());
    }

    /** `_journal_candidates`: every journal file is read, checked and, if nonterminal, collected. */
    method JournalCandidates() returns (r: Result<Option<JournalKey>, Refusal>)
      ensures r == Candidate(journals)
    {
      var names := journals.Keys;
      var candidates: set<JournalKey> := {};
      while names != {}
        invariant names <= journals.Keys
        invariant forall k | k in journals && k !in names :: WellShaped(journals[k])
        invariant candidates == set k | k in journals && k !in names && journals[k].phase != Committed
        decreases names
      {
        var name :| name in names;
        var journal := journals[name];
        if !WellShaped(journal) { return Failure(JournalImpossible); }
        if journal.phase != Committed { candidates := candidates + {name}; }
        names := names - {name};
      }
      assert candidates == PendingKeys(journals);
      if |candidates| > 1 { return Failure(MultipleNonterminalJournals); }
      if candidates == {} { return Success(None); }
      var only :| only in candidates;
      SingletonIs(candidates, only);
      return Success(Some(only));
    }

    /** `_pending_lifecycle_journal`: the writer's own loop, which stops at the first journal it cannot accept. */
    method PendingLifecycleJournal() returns (r: Result<Option<JournalKey>, Refusal>)
      ensures r == PendingJournal(journals)
    {
      var names := journals.Keys;
      var pending: Option<JournalKey> := None;
      while names != {}
        invariant names <= journals.Keys
        invariant forall k | k in journals && k !in names :: TrustedJournal(journals[k])
        invariant forall k | k in journals && k !in names :: journals[k].phase != Committed <==> pending == Some(k)
        invariant pending.Some? ==> pending.value in PendingKeys(journals) && pending.value !in names
        decreases names
      {
        var name :| name in names;
        if !TrustedJournal(journals[name]) { return Failure(JournalUntrusted); }
        if journals[name].phase != Committed {
          if pending.Some? {
            TwoPending(PendingKeys(journals), name, pending.value);
            return Failure(JournalUntrusted);
          }
          pending := Some(name);
        }
        names := names - {name};
      }
      if pending.Some? {
        assert PendingKeys(journals) == {pending.value};
      } else {
        assert PendingKeys(journals) == {};
      }
      r := Success(pending);
    }

    // ---- Durable writes

    /** `_advance`: rewrite the journal with its new phase. */
    method AdvanceTo(j: Journal, phase: Phase)
      modifies this`journals
      ensures Snapshot() == Advance(old(Snapshot()), j, phase)
    {
      journals := journals[KeyOf(j) := j.(phase := phase)];
    }

    /** `_append_operation_bound` up to its write: every check, and the entry that would be written. */
    method CheckAppend(task: string, event: Event, status: string, expected: Option<Digest>, lifecycle: bool)
      returns (r: Result<Entry, Refusal>)
      ensures match Append(env, Snapshot(), task, event, status, expected, lifecycle)
              case Failure(why) => r == Failure(why)
              case Success(appended) => r.Success? && appended == ledger + [r.value] && r.value.event == event
    {
      if ActionName(event) in LIFECYCLE_ACTIONS && !lifecycle { return Failure(PrivateActionRequired); }
      if ActionName(event) !in LIFECYCLE_ACTIONS && lifecycle { return Failure(PrivateActionRequired); }
      if !env.admissible(task, event, status) { return Failure(NotAdmissible); }
      if !ChainOk(env, ledger) { return Failure(LedgerInvalid); }
      var refusal := RejectExternalSeal(event, status, lifecycle);
      if refusal.Some? { return Failure(refusal.value); }
      if TipIsPassedSeal(ledger) { return Failure(LedgerSealed); }
      if expected.Some? && expected.value != Tip(ledger) { return Failure(PreviousHashMismatch); }
      return Success(NextEntry(env, ledger, task, event, status));
    }

    /** `_reject_external_seal`, with its loop over the entries and its loop over the journals. */
    method RejectExternalSeal(event: Event, status: string, lifecycle: bool) returns (r: Option<Refusal>)
      ensures r == GateRefusal(Snapshot(), event, status, lifecycle)
    {
      var derived := ActiveAttempt(ledger);
      if derived.Failure? { return Some(derived.error); }
      var active := derived.value;
      var read := PendingLifecycleJournal();
      if read.Failure? { return Some(read.error); }
      var pending := read.value;
      if pending.Some? && !lifecycle { return Some(AnotherTransitionNonterminal); }
      if lifecycle && !IsThePendingEvent(Snapshot(), pending, event, status) { return Some(NotThePendingTransition); }
      if pointer.None? {
        return if active.Some? then Some(PointerDisagrees) else None;
      }
      var p := pointer.value;
      if !TrustedPointer(p) { return Some(PointerInvalid); }
      if p.status in {Open, Sealed} && active != Some(p.attempt) { return Some(PointerDisagrees); }
      if p.status in {Abandoned, Reopened} && active.Some? { return Some(PointerDisagrees); }
      if p.status == Sealed && !(lifecycle && event.SealReopened?) { return Some(ExternallySealed); }
      return None;
    }

    /** An ordinary append: one entry more, or nothing. */
    method AppendOperation(task: string, action: string, arguments: string, status: string, expected: Option<Digest>)
      returns (r: Result<Entry, Refusal>)
      requires Valid()
      modifies this`ledger
      ensures Valid()
      ensures Snapshot() == Execute(env, old(Snapshot()), OrdinaryAppend(task, action, arguments, status, expected))
      ensures r.Success? ==> ledger == old(ledger) + [r.value] && r.value.event == Ordinary(action, arguments)
      ensures r.Failure? ==>
        Append(env, old(Snapshot()), task, Ordinary(action, arguments), status, expected, false) == Failure(r.error)
    {
      hide Inv;
      OrdinaryAppendKeepsInv(env, Snapshot(), task, action, arguments, status, expected);
      r := CheckAppend(task, Ordinary(action, arguments), status, expected, false);
      if r.Success? { ledger := ledger + [r.value]; }
    }

    /** The private append, if the event is missing, and the step out of `prepared`. */
    method AppendAndAdvance(j: Journal, budget: nat) returns (p: Progress)
      requires InHand(Snapshot(), j) && j.kind != Seal && j.phase == Prepared
      requires PointerAsPrepared(Snapshot(), j)
      modifies this`ledger, this`journals
      ensures Reaches(env, old(Snapshot()), budget, KeyOf(j), Snapshot(), p)
      ensures p.Running? ==> Snapshot() == Advance(old(Snapshot()).(ledger := ledger), j, LedgerAppended)
    {
      hide Continue, WriteOf, Append, Events, ExpectedEvent;
      ghost var before := Snapshot();
      var left := budget;
      PreparedWrites(env, before, j);
      if Events(ledger, ExpectedEvent(j)) == [] {
        var entry := CheckAppend("final-attempt", ExpectedEvent(j), "passed", Some(j.inputs.tip), true);
        if entry.Failure? {
          RefusalReaches(env, before, budget, j, before, left, entry.error);
          return Stopped(Refused(entry.error));
        }
        WriteReaches(env, before, budget, j, before, left, before.(ledger := ledger + [entry.value]));
        if left == 0 { return Stopped(Interrupted); }
        AppendedMatches(env, before, j, ledger + [entry.value]);
        ledger := ledger + [entry.value];
        left := left - 1;
        PreparedWrites(env, Snapshot(), j);
      }
      WriteReaches(env, before, budget, j, Snapshot(), left, Advance(Snapshot(), j, LedgerAppended));
      if left == 0 { return Stopped(Interrupted); }
      AdvanceTo(j, LedgerAppended);
      return Running(left - 1);
    }

    // ---- begin

    method CreateAttemptDirectory(j: Journal, budget: nat) returns (p: Progress)
      requires InHand(Snapshot(), j) && j.kind == Begin && j.phase == LedgerAppended
      modifies this`attempts, this`journals
      ensures Reaches(env, old(Snapshot()), budget, KeyOf(j), Snapshot(), p)
      ensures p.Running? ==> InHand(Snapshot(), j.(phase := DirectoryCreated))
    {
      hide Continue, Append;
      ghost var before := Snapshot();
      var left := budget;
      if j.id !in attempts {
        WriteReaches(env, before, budget, j, before, left, before.(attempts := attempts[j.id := map[]]));
        if left == 0 { return Stopped(Interrupted); }
        attempts := attempts[j.id := map[]];
        left := left - 1;
      } else if attempts[j.id] != map[] {
        RefusalReaches(env, before, budget, j, before, left, AttemptDirectoryNotEmpty);
        return Stopped(Refused(AttemptDirectoryNotEmpty));
      }
      WriteReaches(env, before, budget, j, Snapshot(), left, Advance(Snapshot(), j, DirectoryCreated));
      if left == 0 { return Stopped(Interrupted); }
      AdvanceTo(j, DirectoryCreated);
      return Running(left - 1);
    }

    method OpenCurrentPointer(j: Journal, budget: nat) returns (p: Progress)
      requires InHand(Snapshot(), j) && j.kind == Begin && j.phase == DirectoryCreated && PriorIsOther(j)
      modifies this`pointer, this`journals
      ensures Reaches(env, old(Snapshot()), budget, KeyOf(j), Snapshot(), p)
      ensures p.Running? ==> InHand(Snapshot(), j.(phase := PointerOpen))
    {
      hide Continue, Append;
      ghost var before := Snapshot();
      var left := budget;
      var expected := OpenPointer(j.id, j.inputs.head);
      if pointer.None? || PointerHash(pointer) == j.payload.prior {
        WriteReaches(env, before, budget, j, before, left, before.(pointer := Some(expected)));
        if left == 0 { return Stopped(Interrupted); }
        pointer := Some(expected);
        left := left - 1;
      } else if pointer != Some(expected) {
        RefusalReaches(env, before, budget, j, before, left, PointerNotRecoverable);
        return Stopped(Refused(PointerNotRecoverable));
      }
      WriteReaches(env, before, budget, j, Snapshot(), left, Advance(Snapshot(), j, PointerOpen));
      if left == 0 { return Stopped(Interrupted); }
      AdvanceTo(j, PointerOpen);
      return Running(left - 1);
    }

    method CommitBegin(j: Journal, budget: nat) returns (r: Outcome)
      requires InHand(Snapshot(), j) && j.kind == Begin && j.phase == PointerOpen
      modifies this`journals
      ensures Reaches(env, old(Snapshot()), budget, KeyOf(j), Snapshot(), Stopped(r))
    {
      hide Continue, Append;
      ghost var before := Snapshot();
      var expected := OpenPointer(j.id, j.inputs.head);
      if pointer != Some(expected) {
        RefusalReaches(env, before, budget, j, before, budget, PointerChanged);
        return Refused(PointerChanged);
      }
      CommitReaches(env, before, budget, j, before, budget, Advance(before, j, Committed), expected);
      if budget == 0 { return Interrupted; }
      AdvanceTo(j, Committed);
      return Completed(expected);
    }

    /** The phases of `_resume_begin`, from the one the journal records. */
    method ResumeBegin(journal: Journal, budget: nat) returns (r: Outcome)
      requires InHand(Snapshot(), journal) && journal.kind == Begin && journal.phase != Committed
        && PriorIsOther(journal)
      modifies this
      ensures RunResult(Snapshot(), r) == Continue(env, old(Snapshot()), KeyOf(journal), budget)
    {
      hide Continue, Append, WriteOf, BeginWrite;
      var j, p := journal, Running(budget);
      if j.phase == Prepared {
        if PointerHash(pointer) != j.payload.prior {
          BeginPointerChanged(env, Snapshot(), j);
          RefusalReaches(env, Snapshot(), budget, j, Snapshot(), budget, PointerChanged);
          return Refused(PointerChanged);
        }
        p := AppendAndAdvance(j, p.left);
        if p.Stopped? { return p.outcome; }
        j := j.(phase := LedgerAppended);
      }
      if j.phase == LedgerAppended {
        p := CreateAttemptDirectory(j, p.left);
        if p.Stopped? { return p.outcome; }
        j := j.(phase := DirectoryCreated);
      }
      if j.phase == DirectoryCreated {
        p := OpenCurrentPointer(j, p.left);
        if p.Stopped? { return p.outcome; }
        j := j.(phase := PointerOpen);
      }
      r := CommitBegin(j, p.left);
    }

    // ---- abandon and reopen

    method WriteTerminalMarker(j: Journal, budget: nat) returns (p: Progress)
      requires InHand(Snapshot(), j) && j.kind == Abandon && j.phase == LedgerAppended
      modifies this`attempts, this`journals
      ensures Reaches(env, old(Snapshot()), budget, KeyOf(j), Snapshot(), p)
      ensures p.Running? ==> InHand(Snapshot(), j.(phase := TerminalWritten)) && MarkerExact(Snapshot(), j)
    {
      hide Continue, Append, InventoryOf;
      ghost var before := Snapshot();
      var left := budget;
      var files := attempts[j.inputs.attempt];
      if MARKER !in files {
        WriteReaches(env, before, budget, j, before, left, PutFile(before, j.inputs.attempt, MARKER, MarkerOf(j)));
        if left == 0 { return Stopped(Interrupted); }
        attempts := attempts[j.inputs.attempt := files[MARKER := MarkerOf(j)]];
        left := left - 1;
      } else if files[MARKER] != MarkerOf(j) {
        RefusalReaches(env, before, budget, j, before, left, MarkerNotExact);
        return Stopped(Refused(MarkerNotExact));
      }
      WriteReaches(env, before, budget, j, Snapshot(), left, Advance(Snapshot(), j, TerminalWritten));
      if left == 0 { return Stopped(Interrupted); }
      AdvanceTo(j, TerminalWritten);
      return Running(left - 1);
    }

    method CloseCurrentPointer(j: Journal, budget: nat) returns (p: Progress)
      requires InHand(Snapshot(), j) && (j.kind == Abandon || j.kind == Reopen) && j.phase == ClosingPhase(j.kind)
      requires j.kind == Abandon ==> MarkerExact(Snapshot(), j)
      modifies this`pointer, this`journals
      ensures Reaches(env, old(Snapshot()), budget, KeyOf(j), Snapshot(), p)
      ensures p.Running? ==> InHand(Snapshot(), j.(phase := ClosedPhase(j.kind))) && attempts == old(attempts)
    {
      hide Continue, Append, InventoryOf;
      ghost var before := Snapshot();
      var left := budget;
      var expected := ClosedPointer(pointer.value, j.kind, j.id, attempts[j.inputs.attempt]);
      if pointer.value.status == InitialStatus(j.kind) {
        WriteReaches(env, before, budget, j, before, left, before.(pointer := Some(expected)));
        if left == 0 { return Stopped(Interrupted); }
        pointer := Some(expected);
        left := left - 1;
      } else if pointer.value != expected {
        RefusalReaches(env, before, budget, j, before, left, PointerNotRecoverable);
        return Stopped(Refused(PointerNotRecoverable));
      }
      WriteReaches(env, before, budget, j, Snapshot(), left, Advance(Snapshot(), j, ClosedPhase(j.kind)));
      if left == 0 { return Stopped(Interrupted); }
      AdvanceTo(j, ClosedPhase(j.kind));
      return Running(left - 1);
    }

    method CommitClosed(j: Journal, budget: nat) returns (r: Outcome)
      requires InHand(Snapshot(), j) && (j.kind == Abandon || j.kind == Reopen) && j.phase == ClosedPhase(j.kind)
      requires j.kind == Abandon ==> MarkerExact(Snapshot(), j)
      modifies this`journals
      ensures Reaches(env, old(Snapshot()), budget, KeyOf(j), Snapshot(), Stopped(r))
    {
      hide Continue, Append, InventoryOf;
      ghost var before := Snapshot();
      var expected := ClosedPointer(pointer.value, j.kind, j.id, attempts[j.inputs.attempt]);
      if pointer.value != expected {
        RefusalReaches(env, before, budget, j, before, budget, PointerChanged);
        return Refused(PointerChanged);
      }
      CommitReaches(env, before, budget, j, before, budget, Advance(before, j, Committed), expected);
      if budget == 0 { return Interrupted; }
      AdvanceTo(j, Committed);
      return Completed(expected);
    }

    /** The phases of `_resume_terminal`, from the one the journal records. */
    method ResumeTerminal(journal: Journal, budget: nat) returns (r: Outcome)
      requires InHand(Snapshot(), journal) && (journal.kind == Abandon || journal.kind == Reopen)
        && journal.phase != Committed
      modifies this
      ensures RunResult(Snapshot(), r) == Continue(env, old(Snapshot()), KeyOf(journal), budget)
    {
      hide Continue, Append, WriteOf, TerminalWrite, InventoryOf;
      var j, p := journal, Running(budget);
      if j.phase == Prepared {
        if pointer.value.status != InitialStatus(j.kind) || Digest(PointerDoc(pointer.value)) != j.payload.pointerSha {
          TerminalPointerChanged(env, Snapshot(), j);
          RefusalReaches(env, Snapshot(), budget, j, Snapshot(), budget, PointerChanged);
          return Refused(PointerChanged);
        }
        p := AppendAndAdvance(j, p.left);
        if p.Stopped? { return p.outcome; }
        j := j.(phase := LedgerAppended);
      }
      if j.kind == Abandon {
        if j.phase == LedgerAppended {
          p := WriteTerminalMarker(j, p.left);
          if p.Stopped? { return p.outcome; }
          j := j.(phase := TerminalWritten);
        } else if !MarkerExact(Snapshot(), j) {
          TerminalMarkerChanged(env, Snapshot(), j);
          RefusalReaches(env, old(Snapshot()), budget, j, Snapshot(), p.left, MarkerNotExact);
          return Refused(MarkerNotExact);
        }
      }
      if j.phase == ClosingPhase(j.kind) {
        p := CloseCurrentPointer(j, p.left);
        if p.Stopped? { return p.outcome; }
        j := j.(phase := ClosedPhase(j.kind));
      }
      r := CommitClosed(j, p.left);
    }

    // ---- seal

    method WriteSealFile(j: Journal, budget: nat) returns (p: Progress)
      requires InHand(Snapshot(), j) && j.kind == Seal && j.phase == Prepared
      modifies this`attempts, this`journals
      ensures Reaches(env, old(Snapshot()), budget, KeyOf(j), Snapshot(), p)
      ensures p.Running? ==> InHand(Snapshot(), j.(phase := SealWritten)) && SEAL in attempts[j.inputs.attempt]
    {
      hide Continue;
      ghost var before := Snapshot();
      var left := budget;
      var seal := SealFile(SealOf(j));
      var files := attempts[j.inputs.attempt];
      if pointer.value.status != Open || Digest(PointerDoc(pointer.value)) != j.payload.pointerSha {
        RefusalReaches(env, before, budget, j, before, left, PointerChanged);
        return Stopped(Refused(PointerChanged));
      }
      if SEAL !in files {
        WriteReaches(env, before, budget, j, before, left, PutFile(before, j.inputs.attempt, SEAL, seal));
        if left == 0 { return Stopped(Interrupted); }
        attempts := attempts[j.inputs.attempt := files[SEAL := seal]];
        left := left - 1;
      } else if files[SEAL] != seal {
        RefusalReaches(env, before, budget, j, before, left, SealFileNotExact);
        return Stopped(Refused(SealFileNotExact));
      }
      WriteReaches(env, before, budget, j, Snapshot(), left, Advance(Snapshot(), j, SealWritten));
      if left == 0 { return Stopped(Interrupted); }
      AdvanceTo(j, SealWritten);
      return Running(left - 1);
    }

    method SealCurrentPointer(j: Journal, budget: nat) returns (p: Progress)
      requires InHand(Snapshot(), j) && j.kind == Seal && j.phase == SealWritten && SEAL in attempts[j.inputs.attempt]
      modifies this`pointer, this`journals
      ensures Reaches(env, old(Snapshot()), budget, KeyOf(j), Snapshot(), p)
      ensures p.Running? ==> InHand(Snapshot(), j.(phase := PointerSealed)) && attempts == old(attempts)
    {
      hide Continue;
      ghost var before := Snapshot();
      var left := budget;
      var expected := SealedPointer(pointer.value, j.id, attempts[j.inputs.attempt][SEAL]);
      if pointer.value.status == Open {
        WriteReaches(env, before, budget, j, before, left, before.(pointer := Some(expected)));
        if left == 0 { return Stopped(Interrupted); }
        pointer := Some(expected);
        left := left - 1;
      } else if pointer.value != expected {
        RefusalReaches(env, before, budget, j, before, left, PointerNotRecoverable);
        return Stopped(Refused(PointerNotRecoverable));
      }
      WriteReaches(env, before, budget, j, Snapshot(), left, Advance(Snapshot(), j, PointerSealed));
      if left == 0 { return Stopped(Interrupted); }
      AdvanceTo(j, PointerSealed);
      return Running(left - 1);
    }

    method CommitSealed(j: Journal, budget: nat) returns (r: Outcome)
      requires InHand(Snapshot(), j) && j.kind == Seal && j.phase == PointerSealed && SEAL in attempts[j.inputs.attempt]
      modifies this`journals
      ensures Reaches(env, old(Snapshot()), budget, KeyOf(j), Snapshot(), Stopped(r))
    {
      hide Continue;
      ghost var before := Snapshot();
      var expected := SealedPointer(pointer.value, j.id, attempts[j.inputs.attempt][SEAL]);
      if pointer.value != expected {
        RefusalReaches(env, before, budget, j, before, budget, PointerChanged);
        return Refused(PointerChanged);
      }
      if Digest(LedgerDoc(ledger)) != j.payload.ledgerSha {
        RefusalReaches(env, before, budget, j, before, budget, LedgerChanged);
        return Refused(LedgerChanged);
      }
      CommitReaches(env, before, budget, j, before, budget, Advance(before, j, Committed), expected);
      if budget == 0 { return Interrupted; }
      AdvanceTo(j, Committed);
      return Completed(expected);
    }

    /** The phases of `_resume_seal`, from the one the journal records. */
    method ResumeSeal(journal: Journal, budget: nat) returns (r: Outcome)
      requires InHand(Snapshot(), journal) && journal.kind == Seal && journal.phase != Committed
      modifies this
      ensures RunResult(Snapshot(), r) == Continue(env, old(Snapshot()), KeyOf(journal), budget)
    {
      hide Continue, WriteOf, SealWrite;
      var j, p := journal, Running(budget);
      if j.phase == Prepared {
        p := WriteSealFile(j, p.left);
        if p.Stopped? { return p.outcome; }
        j := j.(phase := SealWritten);
      } else if SEAL !in attempts[j.inputs.attempt] {
        SealFileGone(env, Snapshot(), j);
        RefusalReaches(env, Snapshot(), budget, j, Snapshot(), budget, SealFileMissing);
        return Refused(SealFileMissing);
      }
      if j.phase == SealWritten {
        p := SealCurrentPointer(j, p.left);
        if p.Stopped? { return p.outcome; }
        j := j.(phase := PointerSealed);
      }
      r := CommitSealed(j, p.left);
    }

    // ---- The commands

    /** The one validation of a run, and the phases that follow it. */
    method Proceed(cmd: Command, j: Journal, left: nat) returns (r: Outcome)
      requires WellShaped(j) && j.kind == CommandKind(cmd) && j.phase != Committed && PriorIsOther(j)
      requires KeyOf(j) in journals && journals[KeyOf(j)] == j
      modifies this
      ensures RunResult(Snapshot(), r) == Enter(env, cmd, old(Snapshot()), j, KeyOf(j), left)
    {
      hide Continue, RefusalOf;
      if !PlanMatches(j.inputs, cmd) { return Refused(JournalOfAnotherPlan); }
      var refusal := RefusalOf(env, cmd, Snapshot(), j, KeyOf(j));
      if refusal.Some? { return Refused(refusal.value); }
      match j.kind {
        case Begin => r := ResumeBegin(j, left);
        case Abandon => r := ResumeTerminal(j, left);
        case Seal => r := ResumeSeal(j, left);
        case Reopen => r := ResumeTerminal(j, left);
      }
    }

    /**
     One command: refuse another plan, find the pending journal or prepare one, validate it once,
     and follow its phases. Wherever the hook stops it, the invariant holds.
     */
    method Perform(cmd: Command, budget: nat) returns (r: Outcome)
      requires Valid()
      modifies this
      ensures Valid()
      ensures RunResult(Snapshot(), r) == Invoke(env, cmd, old(Snapshot()), budget)
    {
      hide Inv, Continue, Prepare, RefusalOf;
      ghost var before := Snapshot();
      ValidatedOnce(env, cmd, before, budget);
      RunKeepsInv(env, cmd, before, budget);
      if env.contract.plan != cmd.plan || env.contract.round != cmd.round { return Refused(PlanIdentityDisagrees); }
      var candidates := JournalCandidates();
      if candidates.Failure? { return Refused(candidates.error); }
      var j: Journal;
      var left := budget;
      if candidates.value.Some? {
        j := journals[candidates.value.value];
        if j.kind != CommandKind(cmd) { return Refused(AnotherTransitionNonterminal); }
        PendingIsOther(env, before, candidates.value.value);
      } else {
        var prepared := Prepare(env, cmd, Snapshot());
        if prepared.Failure? { return Refused(prepared.error); }
        if left == 0 { return Interrupted; }
        PreparedIsOther(env, cmd, before);
        j := prepared.value;
        journals := journals[KeyOf(j) := j];
        left := left - 1;
      }
      r := Proceed(cmd, j, left);
    }

    /**
     With writes enough, a begin that can prepare its journal leaves exactly a new entry, an empty
     attempt directory, an open pointer and its committed journal; or, refused by the ledger, its
     prepared journal and nothing else.
     */
    method BeginFinalAttempt(plan: string, round: string, head: string, budget: nat) returns (r: Outcome)
      requires Valid()
      modifies this
      ensures Valid() && RunResult(Snapshot(), r) == Invoke(env, BeginCommand(plan, round, head), old(Snapshot()),
        budget)
      ensures
        var cmd, d := BeginCommand(plan, round, head), old(Snapshot());
        Quiescent(env, cmd, d, budget) && PrepareBegin(env, cmd, d).Success? ==>
          var j := PrepareBegin(env, cmd, d).value;
          && d.ledger != []
          && if LedgerAccepts(env, d.ledger, j)
             then Snapshot() == BegunDisk(env, d, j) && r == Completed(OpenPointer(j.id, head))
             else Snapshot() == PutJournal(d, j) && r.Refused?
    {
      hide Inv, Invoke, LedgerAccepts, BegunDisk, PriorFrozen, ChainOk;
      ghost var cmd, d := BeginCommand(plan, round, head), Snapshot();
      InvSound(env, d);
      if Quiescent(env, cmd, d, budget) && PrepareBegin(env, cmd, d).Success? {
        BeginCompletes(env, cmd, d);
        EnoughWrites(env, cmd, d, budget);
      }
      r := Perform(BeginCommand(plan, round, head), budget);
    }

    /** With writes enough, an abandon closes the attempt over its marker, or stays prepared. */
    method AbandonFinalAttempt(plan: string, round: string, failure: Path, budget: nat) returns (r: Outcome)
      requires Valid()
      modifies this
      ensures Valid() && RunResult(Snapshot(), r) == Invoke(env, AbandonCommand(plan, round, failure), old(Snapshot()),
        budget)
      ensures Closes(env, AbandonCommand(plan, round, failure), old(Snapshot()), budget, Snapshot(), r)
    {
      ghost var d := Snapshot();
      r := Perform(AbandonCommand(plan, round, failure), budget);
      InvokeCloses(env, AbandonCommand(plan, round, failure), d, budget);
    }

    /** With writes enough, a seal that can prepare its journal completes and leaves the ledger alone. */
    method SealAttempt(plan: string, round: string, head: string, output: Path, budget: nat) returns (r: Outcome)
      requires Valid()
      modifies this
      ensures Valid()
      ensures RunResult(Snapshot(), r) == Invoke(env, SealCommand(plan, round, head, output), old(Snapshot()), budget)
      ensures
        var cmd, d := SealCommand(plan, round, head, output), old(Snapshot());
        Quiescent(env, cmd, d, budget) && PrepareSeal(env, cmd, d).Success? ==>
          var j := PrepareSeal(env, cmd, d).value;
          && AttemptInHand(d, j)
          && Snapshot() == SealedDisk(d, j) && r == Completed(SealedDisk(d, j).pointer.value)
    {
      hide Inv, Invoke, PrepareSeal, SealedDisk;
      ghost var cmd, d := SealCommand(plan, round, head, output), Snapshot();
      if Quiescent(env, cmd, d, budget) && PrepareSeal(env, cmd, d).Success? {
        SealCompletes(env, cmd, d);
        EnoughWrites(env, cmd, d, budget);
      }
      r := Perform(SealCommand(plan, round, head, output), budget);
    }

    /** With writes enough, a reopen closes the sealed attempt, or stays prepared. */
    method ReopenSeal(plan: string, round: string, failure: Path, budget: nat) returns (r: Outcome)
      requires Valid()
      modifies this
      ensures Valid() && RunResult(Snapshot(), r) == Invoke(env, ReopenCommand(plan, round, failure), old(Snapshot()),
        budget)
      ensures Closes(env, ReopenCommand(plan, round, failure), old(Snapshot()), budget, Snapshot(), r)
    {
      ghost var d := Snapshot();
      r := Perform(ReopenCommand(plan, round, failure), budget);
      InvokeCloses(env, ReopenCommand(plan, round, failure), d, budget);
    }
  }
}
