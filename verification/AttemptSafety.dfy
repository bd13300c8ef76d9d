/** What keeps the invariant: rewriting a journal, preparing one, and appending its event. */
module AttemptSafety {
  import opened Wrappers
  import opened AttemptModel
  import opened OperationsLedger
  import opened AttemptTransitions
  import opened AttemptInvariant

  // ---- Writing a journal

  /** Journals after one of them, new or pending, is rewritten. */
  lemma WriteJournals(journals: map<JournalKey, Journal>, j: Journal)
    requires JournalsSound(journals)
    requires TrustedJournal(j) && PresealListed(j) && j.id == Digest(InputsDoc(j.inputs))
    requires PendingKeys(journals) <= {KeyOf(j)}
    ensures JournalsSound(journals[KeyOf(j) := j])
    ensures PendingKeys(journals[KeyOf(j) := j]) == if j.phase == Committed then {} else {KeyOf(j)}
  {
    var next := journals[KeyOf(j) := j];
    assert forall k | k in next && k != KeyOf(j) ::
      k in journals && next[k] == journals[k] && k !in PendingKeys(journals);
    assert (KeyOf(j) in PendingKeys(next)) == (j.phase != Committed);
  }

  /** Trust looks at what a journal never changes. */
  lemma PhaseKeepsTrust(j: Journal, phase: Phase)
    requires TrustedJournal(j) && PresealListed(j) && phase in PhasesOf(j.kind)
    ensures TrustedJournal(j.(phase := phase)) && PresealListed(j.(phase := phase))
  {
  }

  /** Rewriting a journal leaves the ledger's obligations to the others as they are. */
  lemma WriteKeepsHistory(ledger: seq<Entry>, journals: map<JournalKey, Journal>, j: Journal)
    requires CommittedHappened(ledger, journals) && EventsJournaled(ledger, journals)
    requires WellShaped(j)
    requires j.kind != Seal && j.phase == Committed ==> Happened(ledger, ExpectedEvent(j))
    ensures CommittedHappened(ledger, journals[KeyOf(j) := j]) && EventsJournaled(ledger, journals[KeyOf(j) := j])
  {
    var next := journals[KeyOf(j) := j];
    assert forall k | k in next && k != KeyOf(j) :: k in journals && next[k] == journals[k];
  }

  /** The pointer's own journals may move to another phase, but keep their inputs. */
  lemma WriteKeepsPointer(d: Disk, j: Journal, active: Option<Digest>)
    requires PointerOwned(d) && SealHeld(d, active)
    requires KeyOf(j) in d.journals ==>
               d.journals[KeyOf(j)].inputs == j.inputs && d.journals[KeyOf(j)].payload == j.payload
               && d.journals[KeyOf(j)].kind == j.kind && WellShaped(j)
    ensures PointerOwned(PutJournal(d, j)) && SealHeld(PutJournal(d, j), active)
  {
    var next := PutJournal(d, j);
    assert forall k | k in d.journals :: k in next.journals && (k != KeyOf(j) ==> next.journals[k] == d.journals[k]);
  }

  /** Recording a new phase keeps the invariant when the new phase fits the rest of the disk. */
  lemma AdvanceKeepsInv(env: Environment, d: Disk, j: Journal, phase: Phase)
    requires Sound(env, d)
    requires KeyOf(j) in d.journals && d.journals[KeyOf(j)] == j && j.phase != Committed
    requires phase in PhasesOf(j.kind)
    requires phase != Committed ==> Tied(d, Active(d.ledger), j.(phase := phase))
    requires phase == Committed ==> Quiet(d, Active(d.ledger))
    requires phase == Committed && j.kind != Seal ==> Happened(d.ledger, ExpectedEvent(j))
    ensures Inv(env, Advance(d, j, phase))
  {
    var next := Advance(d, j, phase);
    var moved := j.(phase := phase);
    PendingIs(d.journals, KeyOf(j));
    WriteJournals(d.journals, moved);
    WriteKeepsHistory(d.ledger, d.journals, moved);
    WriteKeepsPointer(d, moved, Active(d.ledger));
    if phase != Committed { TiedFrame(d, next, Active(d.ledger), moved); }
  }

  /** `Tied` reads the ledger and the pointer only. */
  lemma TiedFrame(d: Disk, next: Disk, active: Option<Digest>, j: Journal)
    requires WellShaped(j) && d.ledger == next.ledger && d.pointer == next.pointer
    ensures Tied(d, active, j) == Tied(next, active, j)
  {
  }

  /** A tip that is still the newest entry precedes no event. */
  lemma NotYetHappened(env: Environment, ledger: seq<Entry>, j: Journal)
    requires LedgerSound(env, ledger)
    requires WellShaped(j) && j.kind != Seal && j.id == Digest(InputsDoc(j.inputs))
    requires j.inputs.tip == Tip(ledger)
    ensures !Happened(ledger, ExpectedEvent(j))
  {
    var last := |ledger| - 1;
    forall i | 0 <= i < |ledger|
      ensures ledger[i].event != ExpectedEvent(j)
    {
      assert EventBound(ledger[i]) && LinkOk(env, ledger, i) && LinkOk(env, ledger, last);
      if i > 0 { assert LinkOk(env, ledger, i-1); }
    }
  }

  lemma PrepareKeepsInv(env: Environment, cmd: Command, d: Disk)
    requires Sound(env, d) && PendingKeys(d.journals) == {} && Quiet(d, Active(d.ledger))
    requires Prepare(env, cmd, d).Success?
    ensures Inv(env, PutJournal(d, Prepare(env, cmd, d).value))
  {
    hide Prepare, Sound, Inv, Quiet, Tied;
    PrepareTies(env, cmd, d);
    PreparedKeepsInv(env, d, Prepare(env, cmd, d).value);
  }

  /** A new journal that ties in with the rest of the disk may be written. */
  lemma PreparedKeepsInv(env: Environment, d: Disk, j: Journal)
    requires Sound(env, d) && PendingKeys(d.journals) == {}
    requires TrustedJournal(j) && PresealListed(j) && j.phase == Prepared
    requires j.id == Digest(InputsDoc(j.inputs)) && KeyOf(j) !in d.journals
    requires Tied(d, Active(d.ledger), j)
    ensures Inv(env, PutJournal(d, j))
  {
    hide LedgerSound, Tied, BeginTied, TerminalTied, SealTied, Quiet;
    WriteJournals(d.journals, j);
    WriteKeepsHistory(d.ledger, d.journals, j);
    WriteKeepsPointer(d, j, Active(d.ledger));
    TiedFrame(d, PutJournal(d, j), Active(d.ledger), j);
  }

  /** A journal is prepared only where its transition may start. */
  lemma PrepareTies(env: Environment, cmd: Command, d: Disk)
    requires Sound(env, d) && Quiet(d, Active(d.ledger)) && Prepare(env, cmd, d).Success?
    ensures var j := Prepare(env, cmd, d).value;
            && j.id == Digest(InputsDoc(j.inputs)) && KeyOf(j) !in d.journals
            && Tied(d, Active(d.ledger), j) && TrustedJournal(j) && PresealListed(j)
  {
    match cmd
    case BeginCommand(_, _, _) => PrepareTiesBegin(env, cmd, d);
    case AbandonCommand(_, _, _) => PrepareTiesTerminal(env, cmd, d);
    case ReopenCommand(_, _, _) => PrepareTiesTerminal(env, cmd, d);
    case SealCommand(_, _, _, _) => PrepareTiesSeal(env, cmd, d);
  }

  lemma PrepareTiesBegin(env: Environment, cmd: Command, d: Disk)
    requires LedgerSound(env, d.ledger) && Quiet(d, Active(d.ledger))
    requires cmd.BeginCommand? && PrepareBegin(env, cmd, d).Success?
    ensures var j := PrepareBegin(env, cmd, d).value;
            && j.id == Digest(InputsDoc(j.inputs)) && KeyOf(j) !in d.journals
            && BeginTied(d, Active(d.ledger), j)
  {
    NotYetHappened(env, d.ledger, PrepareBegin(env, cmd, d).value);
  }

  lemma PrepareTiesTerminal(env: Environment, cmd: Command, d: Disk)
    requires LedgerSound(env, d.ledger) && Quiet(d, Active(d.ledger))
    requires cmd.AbandonCommand? || cmd.ReopenCommand?
    requires PrepareTerminal(env, CommandKind(cmd), cmd, d).Success?
    ensures var j := PrepareTerminal(env, CommandKind(cmd), cmd, d).value;
            && j.id == Digest(InputsDoc(j.inputs)) && KeyOf(j) !in d.journals
            && TerminalTied(d, Active(d.ledger), j)
  {
    NotYetHappened(env, d.ledger, PrepareTerminal(env, CommandKind(cmd), cmd, d).value);
  }

  lemma PrepareTiesSeal(env: Environment, cmd: Command, d: Disk)
    requires LedgerSound(env, d.ledger) && Quiet(d, Active(d.ledger))
    requires cmd.SealCommand? && PrepareSeal(env, cmd, d).Success?
    ensures var j := PrepareSeal(env, cmd, d).value;
            && j.id == Digest(InputsDoc(j.inputs)) && KeyOf(j) !in d.journals
            && SealTied(d, Active(d.ledger), j) && AttestationBound(j) && PresealListed(j)
  {
    hide ChainOk, PresealFilesOk, PresealEvidence;
    PresealNames(d.attempts[d.pointer.value.attempt]);
  }

  /** Pre-seal evidence holds no control file and no post-seal output. */
  lemma PresealNames(files: Files)
    requires PresealFilesOk(files)
    ensures forall p | p in files :: p !in CONTROL + POSTSEAL
  {
    ControlNames();
    forall p | p in files ensures p !in CONTROL + POSTSEAL {
      assert p in PRESEAL || IsChildReceipt(p);
    }
  }

  /** No control file and no post-seal output has the name of a pre-seal file. */
  lemma ControlNames()
    ensures forall p | p in CONTROL + POSTSEAL :: p !in PRESEAL && !IsChildReceipt(p)
  {
    forall p | p in CONTROL + POSTSEAL ensures p !in PRESEAL && !IsChildReceipt(p) {
      assert p[0] != 'f' || p[1] == '1' || p[1] == '4';
      NotPreseal(p);
    }
  }

  lemma NotPreseal(name: string)
    requires |name| > 1 && (name[0] != 'f' || name[1] !in "23")
    ensures name !in PRESEAL && !IsChildReceipt(name)
  {
    assert forall p | p in PRESEAL :: p[0] == 'f' && p[1] in "23";
    forall p | IsChildReceipt(p) ensures p[0] == 'f' && p[1] == '2' {
      assert p[..10][0] == 'f' && p[..10][1] == '2';
    }
  }

  // ---- Appending

  /** A new entry changes the active attempt as one turn of the fold says. */
  lemma AppendFold(ledger: seq<Entry>, e: Entry)
    requires Fold(ledger).Some?
    ensures Fold(ledger + [e]) == FoldEntry(Fold(ledger).value, e)
  {
    FoldSnoc(ledger + [e], |ledger|);
    assert (ledger + [e])[..|ledger|] == ledger;
    assert (ledger + [e])[..|ledger|+1] == ledger + [e];
  }

  lemma AppendChain(env: Environment, ledger: seq<Entry>, task: string, event: Event, status: string)
    requires ChainOk(env, ledger) && env.admissible(task, event, status)
    ensures ChainOk(env, ledger + [NextEntry(env, ledger, task, event, status)])
  {
    var next := ledger + [NextEntry(env, ledger, task, event, status)];
    forall i | 0 <= i < |next|
      ensures LinkOk(env, next, i)
    {
      if i < |ledger| { assert LinkOk(env, ledger, i); }
    }
  }

  /** The fold has seen exactly the attempts that were started. */
  lemma {:induction false} UnstartedUnseen(ledger: seq<Entry>, attempt: Digest)
    requires Fold(ledger).Some?
    requires forall i | 0 <= i < |ledger| && ledger[i].event.Started? :: ledger[i].event.attempt != attempt
    ensures attempt !in Fold(ledger).value.seen
  {
    if ledger != [] {
      UnstartedUnseen(ledger[..|ledger|-1], attempt);
    }
  }

  /** Attempt ids never recur: an id hashes the tip it was prepared at, and every tip is new. */
  lemma FreshAttempt(env: Environment, ledger: seq<Entry>, j: Journal)
    requires LedgerSound(env, ledger)
    requires WellShaped(j) && j.kind == Begin && j.id == Digest(InputsDoc(j.inputs))
    requires !Happened(ledger, ExpectedEvent(j))
    ensures j.id !in Fold(ledger).value.seen
  {
    forall i | 0 <= i < |ledger| && ledger[i].event.Started?
      ensures ledger[i].event.attempt != j.id
    {
      assert EventBound(ledger[i]) && ledger[i].event != ExpectedEvent(j);
    }
    UnstartedUnseen(ledger, j.id);
  }

  lemma HappenedExtends(ledger: seq<Entry>, e: Entry, event: Event)
    requires Happened(ledger, event)
    ensures Happened(ledger + [e], event)
  {
    var i :| 0 <= i < |ledger| && ledger[i].event == event;
    assert (ledger + [e])[i].event == event;
  }

  /** The pending journal's own event extends a sound ledger to a sound one. */
  lemma EventKeepsLedgerSound(env: Environment, d: Disk, j: Journal, e: Entry)
    requires LedgerSound(env, d.ledger)
    requires WellShaped(j) && j.kind != Seal && j.id == Digest(InputsDoc(j.inputs))
    requires EventPending(d.ledger, j, false)
    requires j.kind == Begin ==> Active(d.ledger) == None
    requires j.kind != Begin ==> Active(d.ledger) == Some(j.inputs.attempt)
    requires env.admissible("final-attempt", ExpectedEvent(j), "passed")
    requires e == NextEntry(env, d.ledger, "final-attempt", ExpectedEvent(j), "passed")
    ensures LedgerSound(env, d.ledger + [e])
    ensures Active(d.ledger + [e]) == if j.kind == Begin then Some(j.id) else None
  {
    var next := d.ledger + [e];
    AppendChain(env, d.ledger, "final-attempt", ExpectedEvent(j), "passed");
    AppendFold(d.ledger, e);
    if j.kind == Begin { FreshAttempt(env, d.ledger, j); }
    assert EventBound(e);
    assert forall i | 0 <= i < |next| :: EventBound(next[i]);
  }

  /** While its event is not in the ledger, a prepared journal still waits at its own tip. */
  lemma EventStillPending(env: Environment, d: Disk, j: Journal)
    requires LedgerSound(env, d.ledger)
    requires WellShaped(j) && j.phase == Prepared && j.kind != Seal
    requires Tied(d, Active(d.ledger), j)
    requires Events(d.ledger, ExpectedEvent(j)) == []
    ensures EventPending(d.ledger, j, false)
    ensures Active(d.ledger) == if j.kind == Begin then None else Some(j.inputs.attempt)
  {
    var last := |d.ledger| - 1;
    assert EventBound(d.ledger[last]);
    if !d.ledger[last].event.Ordinary? { OneEvent(env, d.ledger, last); }
  }

  lemma EventKeepsInv(env: Environment, d: Disk, j: Journal, ledger: seq<Entry>)
    requires Sound(env, d)
    requires KeyOf(j) in d.journals && d.journals[KeyOf(j)] == j && j.phase == Prepared && j.kind != Seal
    requires Tied(d, Active(d.ledger), j)
    requires Events(d.ledger, ExpectedEvent(j)) == []
    requires AppendEvent(env, d, j) == Write(d.(ledger := ledger))
    ensures Inv(env, d.(ledger := ledger))
  {
    var e := NextEntry(env, d.ledger, "final-attempt", ExpectedEvent(j), "passed");
    var next := d.(ledger := ledger);
    assert ledger == d.ledger + [e];
    PendingIs(d.journals, KeyOf(j));
    EventStillPending(env, d, j);
    EventKeepsLedgerSound(env, d, j, e);
    EventKeepsHistory(d.ledger, d.journals, j, e);
    EventTies(d, next, j, e);
  }

  lemma EventTies(d: Disk, next: Disk, j: Journal, e: Entry)
    requires WellShaped(j) && j.phase == Prepared && j.kind != Seal
    requires Tied(d, Active(d.ledger), j) && SealHeld(d, Active(d.ledger)) && PointerOwned(d)
    requires e.event == ExpectedEvent(j) && next == d.(ledger := d.ledger + [e])
    requires Active(next.ledger) == if j.kind == Begin then Some(j.id) else None
    ensures Tied(next, Active(next.ledger), j) && SealHeld(next, Active(next.ledger)) && PointerOwned(next)
  {
    assert EventPending(next.ledger, j, true);
  }

  lemma EventKeepsHistory(ledger: seq<Entry>, journals: map<JournalKey, Journal>, j: Journal, e: Entry)
    requires CommittedHappened(ledger, journals) && EventsJournaled(ledger, journals)
    requires KeyOf(j) in journals && journals[KeyOf(j)] == j && WellShaped(j) && j.kind != Seal
    requires e.event == ExpectedEvent(j)
    ensures CommittedHappened(ledger + [e], journals) && EventsJournaled(ledger + [e], journals)
  {
    forall k | k in journals && WellShaped(journals[k]) && journals[k].kind != Seal
      && Happened(ledger, ExpectedEvent(journals[k]))
      ensures Happened(ledger + [e], ExpectedEvent(journals[k]))
    {
      HappenedExtends(ledger, e, ExpectedEvent(journals[k]));
    }
  }
}
