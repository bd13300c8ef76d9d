/** Restarting after a closed attempt, refused transitions, authority, and the shape of the history. */
module AttemptGuarantees {
  import opened Wrappers
  import opened AttemptModel
  import opened OperationsLedger
  import opened AttemptTransitions
  import opened AttemptInvariant
  import opened AttemptSafety
  import opened AttemptSteps
  import opened AttemptRecovery
  import opened AttemptRuns
  import opened AttemptTheorems
  import opened AttemptEffects

  // ---- Frozen directories

  /** An inventory determines the files it was taken from. */
  lemma InventoryDetermines(f: Files, g: Files)
    ensures InventoryOf(f, {}) == InventoryOf(g, {}) <==> f == g
  {
    if InventoryOf(f, {}) == InventoryOf(g, {}) {
      var m := InventoryOf(f, {}).files;
      assert forall p :: p in f <==> p in m;
      assert forall p :: p in g <==> p in InventoryOf(g, {}).files;
      assert forall p | p in f :: m[p] == Digest(ContentDoc(f[p])) == Digest(ContentDoc(g[p]));
      assert f == g;
    }
  }

  /**
   After an abandon or a reopen has closed an attempt, its directory passes the frozen check
   exactly when it is, file by file, the directory the transition left.
   */
  lemma FrozenExactly(env: Environment, cmd: Command, d: Disk, files: Files)
    requires Inv(env, d) && (cmd.AbandonCommand? || cmd.ReopenCommand?)
    requires PrepareTerminal(env, CommandKind(cmd), cmd, d).Success?
    requires var j := PrepareTerminal(env, CommandKind(cmd), cmd, d).value;
             j.kind == Abandon ==> MARKER !in d.attempts[j.inputs.attempt]
    ensures var j := PrepareTerminal(env, CommandKind(cmd), cmd, d).value;
            && AttemptInHand(d, j)
            && var closed := ClosedDisk(env, d, j);
            PriorFrozen(closed.(attempts := closed.attempts[j.inputs.attempt := files]), closed.pointer.value)
            <==> files == closed.attempts[j.inputs.attempt]
  {
    hide Inv;
    var j := PrepareTerminal(env, CommandKind(cmd), cmd, d).value;
    InvSound(env, d);
    TerminalPrepared(env, cmd, d);
    assert j.payload.inventory == InventoryOf(d.attempts[j.inputs.attempt], {});
    ClosedFrozen(env, d, j, files);
  }

  lemma ClosedFrozen(env: Environment, d: Disk, j: Journal, files: Files)
    requires d.ledger != [] && WellShaped(j) && (j.kind == Abandon || j.kind == Reopen) && AttemptInHand(d, j)
    requires j.payload.inventory == InventoryOf(d.attempts[j.inputs.attempt], {})
    requires j.kind == Abandon ==> MARKER !in d.attempts[j.inputs.attempt]
    ensures var closed := ClosedDisk(env, d, j);
            PriorFrozen(closed.(attempts := closed.attempts[j.inputs.attempt := files]), closed.pointer.value)
            <==> files == closed.attempts[j.inputs.attempt]
  {
    hide InventoryOf;
    var before := d.attempts[j.inputs.attempt];
    InventoryDetermines(files, ClosedDisk(env, d, j).attempts[j.inputs.attempt]);
    if j.kind == Abandon {
      ControlFileUnseen(before, MARKER, MarkerOf(j));
      NoMarker(before);
    }
  }

  lemma NoMarker(files: Files)
    requires MARKER !in files
    ensures InventoryOf(files, {MARKER}) == InventoryOf(files, {})
  {
    assert InventoryOf(files, {MARKER}).files == InventoryOf(files, {}).files;
  }

  /**
   When no transition is pending, begin is admitted exactly when the previous attempt, if any, is
   closed and frozen and the new attempt directory does not exist. Its journal name is always free.
   */
  lemma BeginAdmitted(env: Environment, cmd: Command, d: Disk)
    requires Inv(env, d) && PendingKeys(d.journals) == {} && cmd.BeginCommand?
    ensures var id := Digest(InputsDoc(BeginInputs(cmd.head, cmd.plan, cmd.round, Tip(d.ledger))));
            PrepareBegin(env, cmd, d).Success? <==>
              (d.pointer.Some? ==> PriorFrozen(d, d.pointer.value)) && id !in d.attempts
  {
    var inputs := BeginInputs(cmd.head, cmd.plan, cmd.round, Tip(d.ledger));
    var id := Digest(InputsDoc(inputs));
    var key := JournalKey(Begin, id);
    if key in d.journals {
      var j := d.journals[key];
      assert j.phase == Committed by { assert key !in PendingKeys(d.journals); }
      assert j.inputs == inputs && Happened(d.ledger, ExpectedEvent(j));
      NotYetHappened(env, d.ledger, j);
      assert false;
    }
  }

  // ---- A prepared transition that can never go on

  /** The journal waits for an entry that the ledger will never take. */
  predicate RefusedByLedger(env: Environment, d: Disk, j: Journal)
    requires WellShaped(j)
  {
    && j.phase == Prepared && j.kind != Seal && d.ledger != []
    && Events(d.ledger, ExpectedEvent(j)) == []
    && !LedgerAccepts(env, d.ledger, j)
  }

  /** An abandon was prepared over a directory that held a marker file already. */
  predicate MarkerInTheWay(j: Journal)
    requires WellShaped(j)
  {
    j.kind == Abandon && MARKER in j.payload.inventory.files
  }

  predicate Wedged(env: Environment, d: Disk, j: Journal) {
    IsPending(d, j) && (RefusedByLedger(env, d, j) || MarkerInTheWay(j))
  }

  /** The inventory without the marker never equals one with it. */
  lemma MarkerNeverPasses(env: Environment, cmd: Command, d: Disk, j: Journal)
    requires cmd.AbandonCommand? && WellShaped(j) && MarkerInTheWay(j)
    ensures TerminalRefusal(env, cmd, d, j, KeyOf(j)).Some?
  {
    hide FailureReceipt, ExportsOf, ChainOk, EventsRefusal;
    assert forall files: Files :: MARKER !in InventoryOf(files, {MARKER}).files;
  }

  lemma WedgedStep(env: Environment, cmd: Command, d: Disk, j: Journal)
    requires Inv(env, d) && Wedged(env, d, j)
    ensures Step(env, cmd, d).Refuse?
  {
    hide RefusalOf, AppendEvent, TerminalRefusal, WriteOf, TrustedJournal, PresealListed, LedgerSound, Quiet,
      EventsJournaled, CommittedHappened, PointerOwned, SealHeld;
    CandidateIs(d.journals, KeyOf(j));
    if MarkerInTheWay(j) {
      if cmd.AbandonCommand? {
        MarkerNeverPasses(env, cmd, d, j);
        assert RefusalOf(env, cmd, d, j, KeyOf(j)).Some? by { AbandonRefusal(env, cmd, d, j); }
      }
    } else {
      RefusedWrite(env, d, j);
    }
  }

  lemma RefusedWrite(env: Environment, d: Disk, j: Journal)
    requires Inv(env, d) && IsPending(d, j) && RefusedByLedger(env, d, j)
    ensures j.kind != Begin ==> AttemptInHand(d, j) ==> WriteOf(env, d, j).Refuse?
    ensures j.kind == Begin ==> WriteOf(env, d, j).Refuse?
  {
    hide AppendEvent, TrustedJournal, PresealListed, LedgerAccepts, Events;
    assert KeyOf(j) in PendingKeys(d.journals);
    PrivateAppend(env, d, j);
  }

  lemma AbandonRefusal(env: Environment, cmd: Command, d: Disk, j: Journal)
    requires cmd.AbandonCommand? && WellShaped(j) && j.kind == Abandon
    ensures RefusalOf(env, cmd, d, j, KeyOf(j)) == TerminalRefusal(env, cmd, d, j, KeyOf(j))
  {
    hide TerminalRefusal;
  }

  lemma WedgedExecute(env: Environment, d: Disk, j: Journal, op: Op)
    requires Inv(env, d) && Wedged(env, d, j)
    ensures var e := Execute(env, d, op);
            Wedged(env, e, j) && e == d.(attempts := e.attempts, captures := e.captures)
  {
    match op
    case Invocation(cmd, budget) =>
      hide Step, Inv;
      ValidatedOnce(env, cmd, d, budget);
      WedgedStep(env, cmd, d, j);
    case OrdinaryAppend(_, _, _, _, _) => PendingAppendRefused(env, d, op);
    case EvidenceChange(_, _) =>
      assert PendingKeys(Execute(env, d, op).journals) == PendingKeys(d.journals);
  }

  /**
   A begin, abandon or reopen that the ledger refuses after its journal was prepared, and an
   abandon prepared over a marker, stay pending for good: no later command, append or evidence
   change moves the ledger, the pointer or any journal again.
   */
  lemma {:induction false} WedgedForGood(env: Environment, d: Disk, j: Journal, ops: seq<Op>)
    requires Inv(env, d) && Wedged(env, d, j)
    ensures var e := ExecuteAll(env, d, ops); e == d.(attempts := e.attempts, captures := e.captures)
    decreases |ops|
  {
    hide Inv, Wedged, Execute;
    if ops != [] {
      ExecuteKeepsInv(env, d, ops[0]);
      WedgedExecute(env, d, j, ops[0]);
      WedgedForGood(env, Execute(env, d, ops[0]), j, ops[1..]);
    }
  }

  /** What a command that prepares its journal must find in order to complete. */
  predicate CanComplete(env: Environment, d: Disk, j: Journal)
    requires d.ledger != [] && WellShaped(j) && j.kind != Seal
  {
    LedgerAccepts(env, d.ledger, j) && !MarkerInTheWay(j)
  }

  lemma PreparedWedges(env: Environment, cmd: Command, d: Disk)
    requires Inv(env, d) && PendingKeys(d.journals) == {} && Prepare(env, cmd, d).Success?
    requires Prepare(env, cmd, d).value.kind != Seal && !CanComplete(env, d, Prepare(env, cmd, d).value)
    ensures var j := Prepare(env, cmd, d).value;
            Inv(env, PutJournal(d, j)) && Wedged(env, PutJournal(d, j), j)
  {
    hide Inv, Prepare, Tied, Events;
    InvSound(env, d);
    PreparedIsValid(env, cmd, d);
  }

  /** The attempt directory holds a marker exactly when the inventory taken of it lists one. */
  lemma MarkerListed(env: Environment, kind: Kind, cmd: Command, d: Disk)
    requires cmd.AbandonCommand? || cmd.ReopenCommand?
    requires kind == CommandKind(cmd) && PrepareTerminal(env, kind, cmd, d).Success?
    ensures var j := PrepareTerminal(env, kind, cmd, d).value;
            && AttemptInHand(d, j)
            && (MARKER in d.attempts[j.inputs.attempt] <==> MARKER in j.payload.inventory.files)
  {
    hide ChainOk;
  }

  /**
   A begin, abandon or reopen that prepares its journal on a quiet root either completes, or can
   never go on: which of the two is decided before its first write, by the ledger's tip, the
   admissibility of its entry and, for abandon, a marker file in the way.
   */
  lemma CompletesOrWedges(env: Environment, cmd: Command, d: Disk, ops: seq<Op>)
    requires Inv(env, d) && PendingKeys(d.journals) == {} && !cmd.SealCommand?
    requires env.contract.plan == cmd.plan && env.contract.round == cmd.round
    requires Prepare(env, cmd, d).Success?
    ensures var j := Prepare(env, cmd, d).value;
            var r := Invoke(env, cmd, d, 8);
            && d.ledger != []
            && (CanComplete(env, d, j) <==> r.outcome.Completed?)
            && (!CanComplete(env, d, j) ==>
                  var e := ExecuteAll(env, r.disk, ops);
                  && r.disk == PutJournal(d, j)
                  && e == r.disk.(attempts := e.attempts, captures := e.captures))
  {
    hide Inv, Invoke, Wedged, ExecuteAll, LedgerAccepts, PrepareBegin, PrepareTerminal, ClosedDisk, BegunDisk;
    InvSound(env, d);
    var j := Prepare(env, cmd, d).value;
    if cmd.BeginCommand? {
      BeginCompletes(env, cmd, d);
    } else {
      MarkerListed(env, CommandKind(cmd), cmd, d);
      TerminalCompletes(env, cmd, d);
    }
    if !CanComplete(env, d, j) {
      PreparedWedges(env, cmd, d);
      WedgedForGood(env, PutJournal(d, j), j, ops);
    }
  }

  // ---- A new root that wedges

  /** The start of a wedge: an ordinary `seal` entry, which any caller may append to a new root. */
  function SealEntry(task: string, arguments: string): Op {
    OrdinaryAppend(task, "seal", arguments, "passed", None)
  }

  lemma SealEntryAppended(env: Environment, d: Disk, task: string, arguments: string)
    requires Initial(env, d) && env.admissible(task, Ordinary("seal", arguments), "passed")
    ensures var e := Execute(env, d, SealEntry(task, arguments));
            && |e.ledger| == 2 && TipIsPassedSeal(e.ledger)
            && e.pointer == None && e.journals == map[] && e.attempts == d.attempts
  {
    InitialInv(env, d);
    FirstTip(env, d);
    assert "seal" !in LIFECYCLE_ACTIONS by { assert |"seal"| == 4; }
    OrdinaryAppendAdmitted(env, d, task, "seal", arguments, "passed", None);
    hide ChainOk, GateRefusal;
  }

  /**
   From a new root: one admitted ordinary `seal` entry, then a begin. The begin is refused with
   its journal prepared, and whatever is executed afterwards, ledger, pointer and journals stay.
   */
  lemma SealEntryWedges(env: Environment, d: Disk, task: string, arguments: string, cmd: Command, ops: seq<Op>)
    requires Initial(env, d) && env.admissible(task, Ordinary("seal", arguments), "passed")
    requires cmd.BeginCommand? && env.contract.plan == cmd.plan && env.contract.round == cmd.round
    requires var ledger := Execute(env, d, SealEntry(task, arguments)).ledger;
             && ledger != []
             && Digest(InputsDoc(BeginInputs(cmd.head, cmd.plan, cmd.round, Tip(ledger)))) !in d.attempts
    ensures var e := Execute(env, Execute(env, d, SealEntry(task, arguments)), Invocation(cmd, 8));
            var later := ExecuteAll(env, e, ops);
            && e.journals != map[] && PendingKeys(e.journals) == e.journals.Keys
            && later == e.(attempts := later.attempts, captures := later.captures)
  {
    InitialInv(env, d);
    SealEntryAppended(env, d, task, arguments);
    ExecuteKeepsInv(env, d, SealEntry(task, arguments));
    var sealed := Execute(env, d, SealEntry(task, arguments));
    assert PendingKeys(sealed.journals) == {};
    BeginAdmitted(env, cmd, sealed);
    CompletesOrWedges(env, cmd, sealed, ops);
    var j := PrepareBegin(env, cmd, sealed).value;
    hide Inv, Invoke, ExecuteAll, Initial;
    assert !CanComplete(env, sealed, j);
    assert PutJournal(sealed, j).journals == map[KeyOf(j) := j];
  }

  // ---- Authority

  predicate ExternallySealedEver(ledger: seq<Entry>) {
    exists i | 0 <= i < |ledger| :: ActionName(ledger[i].event) == "seal" && ledger[i].status == "passed"
  }

  /** The passed start entries of one attempt. */
  function Starts(ledger: seq<Entry>, attempt: Digest): (r: seq<Entry>)
    ensures forall e | e in r :: e in ledger && e.event.Started? && e.event.attempt == attempt
  {
    if ledger == [] then []
    else
      var rest := ledger[..|ledger|-1];
      var e := ledger[|ledger|-1];
      assert forall x | x in rest :: x in ledger;
      if e.event.Started? && e.event.attempt == attempt && e.status == "passed" then Starts(rest, attempt) + [e]
      else Starts(rest, attempt)
  }

  /** `verify_open_final_attempt_authority`. */
  function VerifyAuthority(env: Environment, d: Disk, attempt: Digest, head: string): Result<Pointer, Refusal> {
    var expected := OpenPointer(attempt, head);
    if d.pointer != Some(expected) then Failure(AuthorityPointerNotExact)
    else if PendingKeys(d.journals) != {} then Failure(AnotherTransitionNonterminal)
    else if !ChainOk(env, d.ledger) then Failure(LedgerInvalid)
    else if ExternallySealedEver(d.ledger) then Failure(ExternallySealed)
    else
      match Fold(d.ledger)
      case None => Failure(LifecycleRelationInvalid)
      case Some(s) =>
        if s.active != Some(attempt) then Failure(AuthorityNoActiveAttempt)
        else
          var starts := Starts(d.ledger, attempt);
          if |starts| != 1 || starts[0].event.head != head then Failure(AuthorityAnotherHead)
          else Success(expected)
  }

  /** An active attempt was started, by exactly one entry. */
  lemma {:induction false} ActiveStarted(ledger: seq<Entry>, attempt: Digest)
    requires Fold(ledger).Some?
    ensures attempt in Fold(ledger).value.seen ==> |Starts(ledger, attempt)| == 1
    ensures attempt !in Fold(ledger).value.seen ==> Starts(ledger, attempt) == []
    ensures Fold(ledger).value.active == Some(attempt) ==> attempt in Fold(ledger).value.seen
  {
    if ledger != [] { ActiveStarted(ledger[..|ledger|-1], attempt); }
  }

  /** A committed begin journal for the attempt, at this HEAD. */
  predicate BegunAt(d: Disk, attempt: Digest, head: string) {
    && JournalKey(Begin, attempt) in d.journals
    && var j := d.journals[JournalKey(Begin, attempt)];
    && WellShaped(j) && j.kind == Begin && j.phase == Committed && j.inputs.head == head
  }

  /**
   Authority is granted in exactly these reachable states: no transition is mid-flight, begin for
   this attempt and HEAD is committed, the attempt is the active one and not sealed, and the
   ledger holds no ordinary passed `seal` entry.
   */
  lemma AuthorityExactly(env: Environment, d: Disk, attempt: Digest, head: string)
    requires Inv(env, d)
    ensures VerifyAuthority(env, d, attempt, head).Success? <==>
              && PendingKeys(d.journals) == {}
              && !ExternallySealedEver(d.ledger)
              && Active(d.ledger) == Some(attempt)
              && d.pointer.Some? && d.pointer.value.status != Sealed
              && BegunAt(d, attempt, head)
  {
    hide Fold, ChainOk, Tied, SealHeld, EventsJournaled, PresealListed;
    ActiveStarted(d.ledger, attempt);
    var starts := Starts(d.ledger, attempt);
    if |starts| == 1 {
      assert starts[0] in d.ledger;
      var i :| 0 <= i < |d.ledger| && d.ledger[i] == starts[0];
      assert EventBound(d.ledger[i]);
    }
    if PendingKeys(d.journals) == {} && d.pointer.Some? && JournalKey(Begin, d.pointer.value.attempt) in d.journals {
      assert JournalKey(Begin, d.pointer.value.attempt) !in PendingKeys(d.journals);
    }
  }

  // ---- The shape of the history

  predicate IsLifecycle(e: Entry) { !e.event.Ordinary? }

  /** Every prefix of an accepted ledger is accepted, one fold step at a time. */
  lemma FoldAt(ledger: seq<Entry>, i: nat)
    requires Fold(ledger).Some? && i < |ledger|
    ensures Fold(ledger[..i]).Some? && Fold(ledger[..i+1]).Some?
    ensures Fold(ledger[..i+1]) == FoldEntry(Fold(ledger[..i]).value, ledger[i])
  {
    hide Fold;
    if Fold(ledger[..i]).None? { FoldFails(ledger, i); }
    if Fold(ledger[..i+1]).None? { FoldFails(ledger, i + 1); }
    FoldSnoc(ledger, i);
  }

  lemma {:induction false} QuietStretch(ledger: seq<Entry>, i: nat, k: nat)
    requires i <= k < |ledger| && Fold(ledger).Some?
    requires forall m | i <= m < k :: !IsLifecycle(ledger[m])
    ensures Fold(ledger[..k]) == Fold(ledger[..i])
    decreases k - i
  {
    if i < k {
      FoldAt(ledger, i);
      QuietStretch(ledger, i + 1, k);
    }
  }

  /** Consecutive lifecycle entries alternate: a start, then the end of that same attempt. */
  lemma LifecycleAlternates(ledger: seq<Entry>, i: nat, k: nat)
    requires Fold(ledger).Some? && i < k < |ledger|
    requires IsLifecycle(ledger[i]) && IsLifecycle(ledger[k])
    requires forall m | i < m < k :: !IsLifecycle(ledger[m])
    ensures ledger[i].event.Started? <==> !ledger[k].event.Started?
    ensures ledger[i].event.Started? ==> ledger[k].event.attempt == ledger[i].event.attempt
  {
    hide Fold;
    FoldAt(ledger, i);
    QuietStretch(ledger, i + 1, k);
    FoldAt(ledger, k);
  }

  /** No attempt id is ever started twice. */
  lemma {:induction false} AttemptStartsOnce(ledger: seq<Entry>, i: nat, k: nat)
    requires Fold(ledger).Some? && i < |ledger| && k < |ledger|
    requires ledger[i].event.Started? && ledger[k].event.Started? && ledger[i].event.attempt == ledger[k].event.attempt
    ensures i == k
  {
    if i < k { LaterStartDiffers(ledger, i, k); }
    if k < i { LaterStartDiffers(ledger, k, i); }
  }

  lemma LaterStartDiffers(ledger: seq<Entry>, i: nat, k: nat)
    requires Fold(ledger).Some? && i < k < |ledger|
    requires ledger[i].event.Started? && ledger[k].event.Started?
    ensures ledger[i].event.attempt != ledger[k].event.attempt
  {
    hide Fold;
    FoldAt(ledger, i);
    SeenPersists(ledger, i + 1, k, ledger[i].event.attempt);
    FoldAt(ledger, k);
  }

  lemma {:induction false} SeenPersists(ledger: seq<Entry>, i: nat, k: nat, attempt: Digest)
    requires i <= k < |ledger| && Fold(ledger).Some?
    requires Fold(ledger[..i]).Some? && attempt in Fold(ledger[..i]).value.seen
    ensures Fold(ledger[..k]).Some? && attempt in Fold(ledger[..k]).value.seen
    decreases k - i
  {
    if i < k {
      FoldAt(ledger, i);
      SeenPersists(ledger, i + 1, k, attempt);
    }
  }
}
