/**
 What the checks demand of any disk, reachable or not: of the ledger's chain and lifecycle, of an
 append, of a pending journal before its next write, and of the write that commits.
 */
module AttemptChecks {
  import opened Wrappers
  import opened AttemptModel
  import opened OperationsLedger
  import opened AttemptTransitions
  import opened AttemptGuarantees
  import opened AttemptAdmission

  // ---- The chain

  /** Entry `i`: its number, the digest of the entry before it, and its content. */
  predicate IsLink(env: Environment, ledger: seq<Entry>, i: nat)
    requires i < |ledger|
  {
    var e := ledger[i];
    && e.sequence == i
    && e.previous == (if i == 0 then None else Some(Digest(EntryDoc(ledger[i - 1]))))
    && (i == 0 ==> e.task == "02" && e.event.Ordinary? && e.event.action == "bootstrap")
    && (i > 0 ==> env.admissible(e.task, e.event, e.status))
  }

  lemma ChainSpelled(env: Environment, ledger: seq<Entry>)
    ensures ChainOk(env, ledger) <==> ledger != [] && forall i | 0 <= i < |ledger| :: IsLink(env, ledger, i)
  {
    forall i | 0 <= i < |ledger| ensures LinkOk(env, ledger, i) <==> IsLink(env, ledger, i) {
    }
  }

  // ---- The lifecycle

  /** The attempt that the lifecycle entry `e` ends, if it ends one. */
  predicate Ends(e: Entry, attempt: Digest) {
    match e.event
    case AttemptAbandoned(_, a, _, _) => a == attempt
    case SealReopened(_, a, _, _) => a == attempt
    case _ => false
  }

  predicate IsStart(e: Entry, attempt: Digest) { e.event.Started? && e.event.attempt == attempt }

  /** `attempt` was started at `k`, and no lifecycle entry has followed. */
  predicate RunsFrom(ledger: seq<Entry>, attempt: Digest, k: nat) {
    && k < |ledger| && IsStart(ledger[k], attempt)
    && forall m | k < m < |ledger| :: ledger[m].event.Ordinary?
  }

  ghost predicate Runs(ledger: seq<Entry>, attempt: Digest) { exists k: nat :: RunsFrom(ledger, attempt, k) }

  ghost predicate StartedIn(ledger: seq<Entry>, attempt: Digest) { exists e :: e in ledger && IsStart(e, attempt) }

  /** What entry `i` may do after the entries before it. */
  ghost predicate Follows(ledger: seq<Entry>, i: nat)
    requires i < |ledger|
  {
    match ledger[i].event
    case Ordinary(action, _) =>
      action != "final_attempt_started" && action != "final_attempt_abandoned" && action != "seal_reopened"
    case Started(attempt, _) =>
      && ledger[i].status == "passed" && (forall other :: !Runs(ledger[..i], other))
      && !StartedIn(ledger[..i], attempt)
    case AttemptAbandoned(_, attempt, _, _) => ledger[i].status == "passed" && Runs(ledger[..i], attempt)
    case SealReopened(_, attempt, _, _) => ledger[i].status == "passed" && Runs(ledger[..i], attempt)
  }

  ghost predicate Alternates(ledger: seq<Entry>) { forall i | 0 <= i < |ledger| :: Follows(ledger, i) }

  lemma RunsNext(ledger: seq<Entry>, e: Entry, attempt: Digest)
    ensures Runs(ledger + [e], attempt) <==> IsStart(e, attempt) || (e.event.Ordinary? && Runs(ledger, attempt))
  {
    var grown := ledger + [e];
    if IsStart(e, attempt) { assert RunsFrom(grown, attempt, |ledger|); }
    if e.event.Ordinary? && Runs(ledger, attempt) {
      var k: nat :| RunsFrom(ledger, attempt, k);
      assert RunsFrom(grown, attempt, k);
    }
    if Runs(grown, attempt) {
      var k: nat :| RunsFrom(grown, attempt, k);
      if k < |ledger| {
        assert grown[|ledger|].event.Ordinary?;
        assert forall m | k < m < |ledger| :: grown[m] == ledger[m];
        assert RunsFrom(ledger, attempt, k);
      }
    }
  }

  lemma AlternatesNext(ledger: seq<Entry>, e: Entry)
    ensures Alternates(ledger + [e]) <==> Alternates(ledger) && Follows(ledger + [e], |ledger|)
  {
    var grown := ledger + [e];
    forall i | 0 <= i < |ledger| ensures Follows(grown, i) <==> Follows(ledger, i) {
      assert grown[..i] == ledger[..i];
    }
  }

  /**
   The fold accepts a ledger exactly when lifecycle entries passed and alternate, each end with its
   own start and each attempt started once; the active attempt is the one that runs.
   */
  lemma {:induction false} FoldExactly(ledger: seq<Entry>)
    ensures Fold(ledger).Some? <==> Alternates(ledger)
    ensures Fold(ledger).Some? ==>
              && (forall a :: Fold(ledger).value.active == Some(a) <==> Runs(ledger, a))
              && forall a :: a in Fold(ledger).value.seen <==> StartedIn(ledger, a)
  {
    if ledger != [] {
      var n := |ledger| - 1;
      var before, e := ledger[..n], ledger[n];
      assert ledger == before + [e];
      FoldExactly(before);
      AlternatesNext(before, e);
      forall a ensures Runs(ledger, a) <==> IsStart(e, a) || (e.event.Ordinary? && Runs(before, a)) {
        RunsNext(before, e, a);
      }
      assert forall a :: StartedIn(ledger, a) <==> StartedIn(before, a) || IsStart(e, a);
      hide StartedIn, Runs, Alternates;
      FoldStep(before, e);
    }
  }

  lemma FoldStep(before: seq<Entry>, e: Entry)
    requires Fold(before).Some? <==> Alternates(before)
    requires Fold(before).Some? ==>
               && (forall a :: Fold(before).value.active == Some(a) <==> Runs(before, a))
               && forall a :: a in Fold(before).value.seen <==> StartedIn(before, a)
    ensures Fold(before).Some? ==> (FoldEntry(Fold(before).value, e).Some? <==> Follows(before + [e], |before|))
  {
    hide Runs, Fold, Alternates, StartedIn;
    assert (before + [e])[..|before|] == before;
  }

  // ---- The append gate and authority

  /** The event that the only journal not committed, a prepared one, is about to append. */
  ghost predicate IsPreparedEvent(journals: map<JournalKey, Journal>, event: Event) {
    exists k | k in journals ::
      && (forall m | m in journals && m != k :: journals[m].phase == Committed)
      && journals[k].phase == Prepared && journals[k].id == Digest(InputsDoc(journals[k].inputs))
      && EventOf(journals[k]) == Some(event)
  }

  function EventOf(j: Journal): Option<Event> {
    match (j.kind, j.inputs)
    case (Begin, BeginInputs(head, _, _, _)) => Some(Started(j.id, head))
    case (Abandon, TerminalInputs(attempt, _, _, sha, path, _, _)) =>
      Some(AttemptAbandoned(j.id, attempt, path, sha))
    case (Reopen, TerminalInputs(attempt, _, _, sha, path, _, _)) => Some(SealReopened(j.id, attempt, path, sha))
    case _ => None
  }

  lemma ExpectedExactly(j: Journal, event: Event)
    requires TrustedJournal(j)
    ensures EventOf(j) == Some(event) <==> j.kind != Seal && event == ExpectedEvent(j)
  {
  }

  lemma PendingOnly(journals: map<JournalKey, Journal>)
    requires PendingJournal(journals).Success?
    ensures forall k | k in journals :: TrustedJournal(journals[k])
    ensures forall k | k in journals ::
              journals[k].phase != Committed <==> PendingJournal(journals).value == Some(k)
  {
    var pending := PendingJournal(journals).value;
    hide TrustedJournal;
    assert forall k | k in journals :: k in PendingKeys(journals) <==> journals[k].phase != Committed;
    assert pending.Some? ==> forall k :: k in PendingKeys(journals) <==> k == pending.value;
  }

  lemma PreparedEventExactly(d: Disk, event: Event, status: string)
    requires PendingJournal(d.journals).Success?
    ensures IsThePendingEvent(d, PendingJournal(d.journals).value, event, status) <==>
              status == "passed" && IsPreparedEvent(d.journals, event)
  {
    hide PendingJournal, EventOf, ExpectedEvent;
    PendingOnly(d.journals);
    var pending := PendingJournal(d.journals).value;
    if pending.Some? && pending.value in d.journals { ExpectedExactly(d.journals[pending.value], event); }
    hide TrustedJournal;
  }

  /**
   On any disk, the gate lets an append through exactly when the lifecycle is in order, every
   journal is trusted, the append is the pending transition's or nothing is pending, and the
   pointer agrees: an open or sealed attempt runs, no attempt runs otherwise, and a sealed one
   lets only a reopen through.
   */
  lemma GateExactly(d: Disk, event: Event, status: string, lifecycle: bool)
    ensures GateRefusal(d, event, status, lifecycle) == None <==>
              && Alternates(d.ledger) && (forall k | k in d.journals :: TrustedJournal(d.journals[k]))
              && (if lifecycle then status == "passed" && IsPreparedEvent(d.journals, event)
                  else forall k | k in d.journals :: d.journals[k].phase == Committed)
              && match d.pointer
                 case None => forall a :: !Runs(d.ledger, a)
                 case Some(p) =>
                   && TrustedPointer(p)
                   && match p.status
                      case Open => Runs(d.ledger, p.attempt)
                      case Sealed => Runs(d.ledger, p.attempt) && lifecycle && event.SealReopened?
                      case _ => forall a :: !Runs(d.ledger, a)
  {
    FoldExactly(d.ledger);
    PendingExactly(d.journals, event);
    if PendingJournal(d.journals).Success? { PreparedEventExactly(d, event, status); }
    hide Fold, Runs, Alternates, PendingJournal, TrustedJournal, TrustedPointer, IsThePendingEvent, IsPreparedEvent;
  }

  lemma PendingExactly(journals: map<JournalKey, Journal>, event: Event)
    ensures PendingJournal(journals) == Success(None) <==>
              (forall k | k in journals :: TrustedJournal(journals[k]) && journals[k].phase == Committed)
    ensures PendingJournal(journals).Success? ==> forall k | k in journals :: TrustedJournal(journals[k])
    ensures (forall k | k in journals :: TrustedJournal(journals[k])) && IsPreparedEvent(journals, event) ==>
              PendingJournal(journals).Success? && PendingJournal(journals).value.Some?
  {
    hide TrustedJournal, EventOf;
    assert forall k | k in journals && journals[k].phase != Committed :: k in PendingKeys(journals);
    if IsPreparedEvent(journals, event) {
      var k :| k in journals && journals[k].phase == Prepared
               && forall m | m in journals && m != k :: journals[m].phase == Committed;
      assert PendingKeys(journals) == {k};
    }
  }

  /** On any disk, authority takes a sound ledger without a passed `seal` entry, and its own attempt running. */
  lemma AuthorityOnAnyDisk(env: Environment, d: Disk, attempt: Digest, head: string)
    ensures VerifyAuthority(env, d, attempt, head).Success? <==>
              && d.pointer == Some(Pointer(attempt, head, Open, None, None, None, None))
              && (forall k | k in d.journals :: d.journals[k].phase == Committed)
              && ChainOk(env, d.ledger) && (forall e | e in d.ledger :: !IsPassedSealEntry(e))
              && Alternates(d.ledger) && Runs(d.ledger, attempt)
              && exists e :: e in d.ledger && e.event == Started(attempt, head)
  {
    FoldExactly(d.ledger);
    if Fold(d.ledger).Some? {
      ActiveStarted(d.ledger, attempt);
      StartsPassed(d.ledger);
    }
    assert PendingKeys(d.journals) == {} <==> forall k | k in d.journals :: d.journals[k].phase == Committed by {
      assert forall k | k in d.journals && d.journals[k].phase != Committed :: k in PendingKeys(d.journals);
    }
    forall i | 0 <= i < |d.ledger|
      ensures IsPassedSealEntry(d.ledger[i]) <==>
              ActionName(d.ledger[i].event) == "seal" && d.ledger[i].status == "passed"
    {
      SealEntrySpelled(d.ledger[i]);
    }
    OneStart(d.ledger, attempt);
    var starts := Starts(d.ledger, attempt);
    assert |starts| == 1 ==> starts == [starts[0]];
    hide Fold, Runs, Alternates, ChainOk, Starts, IsPassedSealEntry;
  }

  lemma StartsPassed(ledger: seq<Entry>)
    requires Alternates(ledger)
    ensures forall e | e in ledger && e.event.Started? :: e.status == "passed"
  {
    forall e | e in ledger && e.event.Started? ensures e.status == "passed" {
      var i :| 0 <= i < |ledger| && ledger[i] == e;
      assert Follows(ledger, i);
    }
  }

  lemma {:induction false} OneStart(ledger: seq<Entry>, attempt: Digest)
    ensures forall e :: e in Starts(ledger, attempt) <==> e in ledger && IsStart(e, attempt) && e.status == "passed"
  {
    if ledger != [] {
      OneStart(ledger[..|ledger| - 1], attempt);
      assert ledger == ledger[..|ledger| - 1] + [ledger[|ledger| - 1]];
    }
  }

  // ---- The event of a pending journal

  /** The entry records the event as the private append writes it. */
  predicate Records(e: Entry, event: Event) { e.event == event && e.task == "final-attempt" && e.status == "passed" }

  /** The event stands at `i` and nowhere else. */
  predicate OnceAt(ledger: seq<Entry>, event: Event, i: nat) {
    && i < |ledger| && Records(ledger[i], event)
    && forall k | 0 <= k < |ledger| && k != i :: !Records(ledger[k], event)
  }

  ghost predicate Nowhere(ledger: seq<Entry>, event: Event) { forall e | e in ledger :: !Records(e, event) }

  lemma {:induction false} EventsExactly(ledger: seq<Entry>, event: Event)
    ensures Events(ledger, event) == [] <==> Nowhere(ledger, event)
    ensures |Events(ledger, event)| == 1 <==> exists i: nat :: OnceAt(ledger, event, i)
    ensures forall i: nat :: OnceAt(ledger, event, i) ==> i < |ledger| && Events(ledger, event) == [ledger[i]]
  {
    if ledger == [] {
      assert forall i: nat :: !OnceAt(ledger, event, i);
      assert Nowhere(ledger, event);
    } else {
      var n := |ledger| - 1;
      var before, e := ledger[..n], ledger[n];
      assert ledger == before + [e];
      EventsExactly(before, event);
      OnceNext(before, e, event);
      assert Nowhere(ledger, event) <==> Nowhere(before, event) && !Records(e, event);
      if Records(e, event) {
        assert Events(ledger, event) == Events(before, event) + [e];
        assert OnceAt(ledger, event, n) <==> Nowhere(before, event);
      } else {
        assert Events(ledger, event) == Events(before, event);
        assert forall i: nat :: OnceAt(ledger, event, i) <==> OnceAt(before, event, i);
      }
      hide OnceAt, Nowhere, Events;
    }
  }

  lemma OnceNext(before: seq<Entry>, e: Entry, event: Event)
    ensures forall i: nat :: OnceAt(before + [e], event, i) <==>
              if Records(e, event) then i == |before| && Nowhere(before, event) else OnceAt(before, event, i)
  {
    var grown := before + [e];
    forall i: nat ensures OnceAt(grown, event, i) <==>
                            if Records(e, event) then i == |before| && Nowhere(before, event)
                            else OnceAt(before, event, i)
    {
      assert grown[|before|] == e && forall k | 0 <= k < |before| :: grown[k] == before[k];
      if Records(e, event) && OnceAt(grown, event, i) {
        assert forall x | x in before :: exists k :: 0 <= k < |before| && grown[k] == x;
      }
    }
  }

  /** The event was appended once, behind the recorded tip; or never, and the tip is the recorded one. */
  ghost predicate EventInPlace(ledger: seq<Entry>, event: Event, tip: Digest)
    requires ledger != []
  {
    || (exists i: nat :: OnceAt(ledger, event, i) && ledger[i].previous == Some(tip))
    || (Nowhere(ledger, event) && Digest(EntryDoc(ledger[|ledger| - 1])) == tip)
  }

  lemma EventInPlaceExactly(ledger: seq<Entry>, event: Event, tip: Digest)
    requires ledger != []
    ensures EventsRefusal(ledger, event, tip).None? <==> EventInPlace(ledger, event, tip)
  {
    EventsExactly(ledger, event);
    hide OnceAt, Nowhere, Events;
  }

  // ---- Preparing

  /** On any disk, a begin is prepared over a sound pointer and ledger, a prior attempt as left, and a free name. */
  lemma BeginPrepares(env: Environment, cmd: Command, d: Disk)
    requires cmd.BeginCommand?
    ensures PrepareBegin(env, cmd, d).Success? <==>
              && (d.pointer.Some? ==> PointerShape(d.pointer.value)) && PriorAsLeft(d)
              && ChainOk(env, d.ledger) && d.ledger != []
              && var inputs := BeginInputs(cmd.head, cmd.plan, cmd.round,
                                           Digest(EntryDoc(d.ledger[|d.ledger| - 1])));
              && Digest(InputsDoc(inputs)) !in d.attempts
              && JournalKey(Begin, Digest(InputsDoc(inputs))) !in d.journals
  {
    if d.pointer.Some? && d.pointer.value.attempt in d.attempts {
      FilesSpelled(d.attempts[d.pointer.value.attempt]);
      ResumedSpelled(Abandon, d.attempts[d.pointer.value.attempt]);
    }
    hide LinkOk, InventoryOf, WholeInventory, Resumed, PointerShape;
  }

  /** On any disk, an abandon or reopen is prepared with its receipt and exports, under a free name. */
  lemma TerminalPrepares(env: Environment, cmd: Command, d: Disk)
    requires cmd.AbandonCommand? || cmd.ReopenCommand?
    ensures PrepareTerminal(env, CommandKind(cmd), cmd, d).Success? <==>
              && d.pointer.Some? && PointerShape(d.pointer.value) && ChainOk(env, d.ledger) && d.ledger != []
              && (if cmd.AbandonCommand?
                  then d.pointer.value.status == Open
                       && HasReceipt(env, d, cmd.failure, "f2-failure.json", "f3-failure.json")
                  else d.pointer.value.status == Sealed
                       && HasReceipt(env, d, cmd.failure, "f1-review.md", "f4-review.md")
                       && "operations-seal.json" in d.attempts[d.pointer.value.attempt])
              && var a := d.pointer.value.attempt;
              var files := d.attempts[a];
              && env.exports(PresealFiles(files), d.captures, a).Some?
              && var inputs := TerminalInputs(
                   a, cmd.plan, cmd.round, Digest(ContentDoc(files[cmd.failure.name])), cmd.failure,
                   Digest(EntryDoc(d.ledger[|d.ledger| - 1])),
                   if cmd.AbandonCommand? then None else Some(Digest(ContentDoc(files["operations-seal.json"]))));
              JournalKey(if cmd.AbandonCommand? then Abandon else Reopen, Digest(InputsDoc(inputs))) !in d.journals
  {
    if d.pointer.Some? && d.pointer.value.attempt in d.attempts { FilesSpelled(d.attempts[d.pointer.value.attempt]); }
    hide LinkOk, InventoryOf, WholeInventory, PointerShape, EvidenceFiles, PresealEvidence, Receipts, PresealFiles;
  }

  // ---- Before the next write of a pending journal

  /** A begin goes on: its own HEAD, identity and name, a sound ledger, an empty directory, its event in place. */
  lemma BeginChecked(env: Environment, cmd: Command, d: Disk, j: Journal, key: JournalKey)
    requires WellShaped(j) && j.kind == Begin && cmd.BeginCommand?
    ensures RefusalOf(env, cmd, d, j, key).None? <==>
              && j.inputs.head == cmd.head && j.id == Digest(InputsDoc(j.inputs)) && key == JournalKey(Begin, j.id)
              && ChainOk(env, d.ledger) && d.ledger != []
              && (j.phase == DirectoryCreated || j.phase == PointerOpen ==>
                    j.id in d.attempts && d.attempts[j.id] == map[])
              && EventInPlace(d.ledger, Started(j.id, j.inputs.head), j.inputs.tip)
  {
    if d.ledger != [] { EventInPlaceExactly(d.ledger, Started(j.id, j.inputs.head), j.inputs.tip); }
    hide EventsRefusal, EventInPlace;
  }

  /** An abandon or reopen goes on: the recorded receipt, exports and files besides. */
  lemma TerminalChecked(env: Environment, cmd: Command, d: Disk, j: Journal, key: JournalKey)
    requires WellShaped(j) && j.kind == CommandKind(cmd) && (cmd.AbandonCommand? || cmd.ReopenCommand?)
    ensures RefusalOf(env, cmd, d, j, key).None? <==>
              && d.pointer.Some? && PointerShape(d.pointer.value) && d.pointer.value.attempt == j.inputs.attempt
              && (if cmd.AbandonCommand? then HasReceipt(env, d, cmd.failure, "f2-failure.json", "f3-failure.json")
                  else HasReceipt(env, d, cmd.failure, "f1-review.md", "f4-review.md"))
              && var files := d.attempts[j.inputs.attempt];
              && cmd.failure == j.inputs.failurePath
              && Digest(ContentDoc(files[cmd.failure.name])) == j.inputs.failureSha
              && env.exports(PresealFiles(files), d.captures, j.inputs.attempt) == Some(j.payload.exports)
              && WholeInventory(Resumed(j.kind, files)) == j.payload.inventory
              && j.id == Digest(InputsDoc(j.inputs))
              && key == JournalKey(if cmd.AbandonCommand? then Abandon else Reopen, j.id)
              && ChainOk(env, d.ledger) && d.ledger != []
              && EventInPlace(d.ledger,
                              if cmd.AbandonCommand?
                              then AttemptAbandoned(j.id, j.inputs.attempt, cmd.failure, j.inputs.failureSha)
                              else SealReopened(j.id, j.inputs.attempt, cmd.failure, j.inputs.failureSha),
                              j.inputs.tip)
  {
    if d.ledger != [] { EventInPlaceExactly(d.ledger, ExpectedEvent(j), j.inputs.tip); }
    if j.inputs.attempt in d.attempts {
      FilesSpelled(d.attempts[j.inputs.attempt]);
      ResumedSpelled(j.kind, d.attempts[j.inputs.attempt]);
    }
    hide EventsRefusal, EventInPlace, InventoryOf, WholeInventory, Resumed, TerminalExclusion, EvidenceFiles,
      PresealEvidence, Receipts, PresealFiles, PointerShape;
  }

  /** A seal goes on: the attestation of the evidence as it is, the seal file aside, is the recorded one. */
  lemma SealChecked(env: Environment, cmd: Command, d: Disk, j: Journal, key: JournalKey)
    requires WellShaped(j) && j.kind == Seal && cmd.SealCommand?
    ensures RefusalOf(env, cmd, d, j, key).None? <==>
              && d.pointer.Some? && PointerShape(d.pointer.value) && d.pointer.value.attempt == j.inputs.attempt
              && var a, was := j.inputs.attempt, j.payload.attestation;
              && cmd.head == j.inputs.head && cmd.output == Path(a, "operations-seal.json")
              && j.id == Digest(InputsDoc(j.inputs)) && key == JournalKey(Seal, j.id)
              && a in d.attempts && (forall p | p in d.attempts[a] :: '/' !in p)
              && var files := PresealFiles(d.attempts[a]);
              && env.exports(files, d.captures, a) == Some(j.payload.exports)
              && WholeInventory(BesideSeal(d.attempts[a])) == j.payload.inventory
              && env.attest(files, d.captures, a, cmd.head, env.contract.base, j.payload.inventory, j.payload.exports)
                 == Some(was.receipts)
              && was == Attestation(a, cmd.head, env.contract.base, was.receipts, j.payload.inventory,
                                    j.payload.exports)
              && j.inputs == SealInputs(a, cmd.head, j.inputs.plan, j.inputs.round, j.inputs.tip,
                                        Digest(AttestationDoc(was)), Digest(InventoryDoc(j.payload.inventory.files)),
                                        Digest(ExportsDoc(j.payload.exports)))
  {
    if j.inputs.attempt in d.attempts {
      FilesSpelled(d.attempts[j.inputs.attempt]);
      BesideSealSpelled(d.attempts[j.inputs.attempt]);
    }
    hide InventoryOf, WholeInventory, BesideSeal, PresealEvidence, PresealFiles, PointerShape;
  }

  // ---- The write that commits

  /** On any disk: a transition commits only in its last phase, behind the pointer it has written. */
  lemma CommitsExactly(env: Environment, d: Disk, j: Journal)
    requires WellShaped(j) && j.phase != Committed && (j.kind != Begin ==> AttemptInHand(d, j))
    ensures WriteOf(env, d, j).Commit? <==>
              if j.kind == Begin then
                j.phase == PointerOpen && d.pointer == Some(Pointer(j.id, j.inputs.head, Open, None, None, None, None))
              else
                var p, files := d.pointer.value, d.attempts[j.inputs.attempt];
                if j.kind == Seal then
                  && j.phase == PointerSealed && p.status == Sealed && p.sealId == Some(j.id)
                  && "operations-seal.json" in files
                  && p.sealSha == Some(Digest(ContentDoc(files["operations-seal.json"])))
                  && j.payload.ledgerSha == Digest(LedgerDoc(d.ledger))
                else
                  && p.transition == Some(j.id) && p.frozen == Some(WholeInventory(files))
                  && (j.kind == Reopen ==> j.phase == PointerReopened && p.status == Reopened)
                  && (j.kind == Abandon ==>
                        && j.phase == PointerAbandoned && p.status == Abandoned && "attempt-abandoned.json" in files
                        && files["attempt-abandoned.json"]
                           == MarkerFile(Marker(j.inputs.attempt, j.id, j.inputs.failureSha, j.payload.inventory)))
    ensures WriteOf(env, d, j).Commit? ==>
              && WriteOf(env, d, j).result == d.pointer.value
              && WriteOf(env, d, j).next
                 == d.(journals := d.journals[JournalKey(j.kind, j.id) :=
                         Journal(j.kind, j.id, Committed, j.inputs, j.payload)])
  {
    if j.kind != Begin { FilesSpelled(d.attempts[j.inputs.attempt]); }
    hide InventoryOf, WholeInventory, AppendEvent, Events;
  }
}
