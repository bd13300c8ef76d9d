/**
 The relation that ties the pointer, the pending journal and the ledger's active attempt in
 every reachable state, crash states included, and the proof that every durable write keeps it.
 It never mentions the attempt directories, so no change to the evidence files can break it.
 */
module AttemptInvariant {
  import opened Wrappers
  import opened AttemptModel
  import opened OperationsLedger
  import opened AttemptTransitions

  // ---- Lifecycle events are bound to the tip they were prepared at

  /** The entry was written by the private append, directly after the tip its identity hashes. */
  predicate EventBound(e: Entry) {
    match e.event
    case Ordinary(action, _) => action !in LIFECYCLE_ACTIONS
    case Started(attempt, head) =>
      && Matches(e, e.event)
      && attempt.of.InputsDoc?
      && var inputs := attempt.of.inputs;
      && inputs.BeginInputs? && inputs.head == head && e.previous == Some(inputs.tip)
    case AttemptAbandoned(transition, attempt, path, sha) =>
      Matches(e, e.event) && TerminalBound(e, transition, attempt, path, sha)
    case SealReopened(transition, attempt, path, sha) =>
      Matches(e, e.event) && TerminalBound(e, transition, attempt, path, sha)
  }

  predicate TerminalBound(e: Entry, transition: Digest, attempt: Digest, path: Path, sha: Digest) {
    && transition.of.InputsDoc?
    && var inputs := transition.of.inputs;
    && inputs.TerminalInputs?
    && inputs.attempt == attempt && inputs.failurePath == path && inputs.failureSha == sha
    && e.previous == Some(inputs.tip)
  }

  predicate Bound(ledger: seq<Entry>) {
    forall i | 0 <= i < |ledger| :: EventBound(ledger[i])
  }

  predicate Happened(ledger: seq<Entry>, event: Event) {
    exists i | 0 <= i < |ledger| :: ledger[i].event == event
  }

  /** Two entries of a verified ledger that record the same lifecycle event are the same entry. */
  lemma LifecycleEventOnce(env: Environment, ledger: seq<Entry>, i: nat, k: nat)
    requires ChainOk(env, ledger) && Bound(ledger)
    requires i < |ledger| && k < |ledger|
    requires ledger[i].event == ledger[k].event && !ledger[i].event.Ordinary?
    ensures i == k
  {
    assert EventBound(ledger[i]) && EventBound(ledger[k]);
    assert LinkOk(env, ledger, i) && LinkOk(env, ledger, k);
    assert EntryHash(ledger[i-1]) == EntryHash(ledger[k-1]);
    assert LinkOk(env, ledger, i-1) && LinkOk(env, ledger, k-1);
  }

  lemma ChainPrefix(env: Environment, ledger: seq<Entry>, n: nat)
    requires ChainOk(env, ledger) && 0 < n <= |ledger|
    ensures ChainOk(env, ledger[..n])
  {
    var prefix := ledger[..n];
    forall i | 0 <= i < n
      ensures LinkOk(env, prefix, i)
    {
      assert LinkOk(env, ledger, i);
    }
  }

  lemma {:induction false} NoEvents(ledger: seq<Entry>, event: Event)
    requires !Happened(ledger, event)
    ensures Events(ledger, event) == []
  {
    if ledger != [] {
      var rest := ledger[..|ledger|-1];
      assert forall i | 0 <= i < |rest| :: rest[i] == ledger[i];
      assert !Happened(rest, event);
      assert ledger[|ledger|-1].event != event;
      NoEvents(rest, event);
    }
  }

  /** `_events` finds exactly the one entry at which the event happened. */
  lemma {:induction false} OneEvent(env: Environment, ledger: seq<Entry>, i: nat)
    requires ChainOk(env, ledger) && Bound(ledger)
    requires i < |ledger| && !ledger[i].event.Ordinary?
    ensures Events(ledger, ledger[i].event) == [ledger[i]]
  {
    var event := ledger[i].event;
    assert EventBound(ledger[i]);
    var last := |ledger| - 1;
    var rest := ledger[..last];
    if i == last {
      if Happened(rest, event) {
        var k :| 0 <= k < |rest| && rest[k].event == event;
        LifecycleEventOnce(env, ledger, i, k);
      }
      NoEvents(rest, event);
    } else {
      if ledger[last].event == event { LifecycleEventOnce(env, ledger, i, last); }
      ChainPrefix(env, ledger, last);
      assert forall m | 0 <= m < |rest| :: rest[m] == ledger[m];
      OneEvent(env, rest, i);
    }
  }

  // ---- Journals

  /** A seal journal inventories pre-seal files only, the same that its attestation lists. */
  predicate PresealListed(j: Journal) {
    j.kind == Seal && WellShaped(j) ==>
      && j.payload.attestation.inventory == j.payload.inventory
      && forall p | p in j.payload.inventory.files :: p !in CONTROL + POSTSEAL
  }

  predicate JournalsSound(journals: map<JournalKey, Journal>) {
    forall k | k in journals ::
      && TrustedJournal(journals[k])
      && PresealListed(journals[k])
      && KeyOf(journals[k]) == k
      && journals[k].id == Digest(InputsDoc(journals[k].inputs))
  }

  predicate AtMostOnePending(journals: map<JournalKey, Journal>) {
    forall k, l | k in PendingKeys(journals) && l in PendingKeys(journals) :: k == l
  }

  /** Every committed begin, abandon and reopen has its entry. */
  predicate CommittedHappened(ledger: seq<Entry>, journals: map<JournalKey, Journal>) {
    forall k | k in journals && WellShaped(journals[k]) && k.kind != Seal && journals[k].kind != Seal
      && journals[k].phase == Committed ::
      Happened(ledger, ExpectedEvent(journals[k]))
  }

  function EventKey(event: Event): Option<JournalKey> {
    match event
    case Ordinary(_, _) => None
    case Started(attempt, _) => Some(JournalKey(Begin, attempt))
    case AttemptAbandoned(transition, _, _, _) => Some(JournalKey(Abandon, transition))
    case SealReopened(transition, _, _, _) => Some(JournalKey(Reopen, transition))
  }

  /** Every lifecycle entry belongs to a journal. */
  predicate EventsJournaled(ledger: seq<Entry>, journals: map<JournalKey, Journal>) {
    forall i | 0 <= i < |ledger| && EventKey(ledger[i].event).Some? :: EventKey(ledger[i].event).value in journals
  }

  // ---- The pointer

  predicate PointerOwned(d: Disk) {
    d.pointer.Some? ==>
      var p := d.pointer.value;
      && TrustedPointer(p)
      && JournalKey(Begin, p.attempt) in d.journals
      && var inputs := d.journals[JournalKey(Begin, p.attempt)].inputs;
      && inputs.BeginInputs? && inputs.head == p.head
  }

  /** A sealed pointer identifies its seal journal, and the ledger is the sealed one until a reopen. */
  predicate SealHeld(d: Disk, active: Option<Digest>) {
    d.pointer.Some? && d.pointer.value.status == Sealed ==>
      var p := d.pointer.value;
      && p.sealId.Some?
      && var key := JournalKey(Seal, p.sealId.value);
      && key in d.journals
      && WellShaped(d.journals[key]) && d.journals[key].kind == Seal
      && var j := d.journals[key];
      && j.inputs.attempt == p.attempt && j.inputs.head == p.head
      && (active == Some(p.attempt) ==> LedgerSealedBy(d.ledger, j))
  }

  predicate LedgerSealedBy(ledger: seq<Entry>, j: Journal)
    requires WellShaped(j) && j.kind == Seal
  {
    && j.payload.ledgerSha == Digest(LedgerDoc(ledger))
    && ledger != [] && Tip(ledger) == j.inputs.tip
  }

  // ---- The pending transition

  predicate Closed(p: Option<Pointer>) {
    p == None || p.value.status in {Abandoned, Reopened}
  }

  /** No transition is pending: the pointer status alone decides who is active. */
  predicate Quiet(d: Disk, active: Option<Digest>) {
    active == if Closed(d.pointer) then None else Some(d.pointer.value.attempt)
  }

  /** The event of `j` is the newest entry, or it is not written and the tip has not moved. */
  predicate EventPending(ledger: seq<Entry>, j: Journal, appended: bool)
    requires WellShaped(j) && j.kind != Seal
  {
    && ledger != []
    && if appended then ledger[|ledger|-1].event == ExpectedEvent(j)
       else Tip(ledger) == j.inputs.tip && !Happened(ledger, ExpectedEvent(j))
  }

  predicate BeginTied(d: Disk, active: Option<Digest>, j: Journal)
    requires WellShaped(j) && j.kind == Begin
  {
    var prior := PointerHash(d.pointer) == j.payload.prior && Closed(d.pointer);
    var isOpen := d.pointer == Some(OpenPointer(j.id, j.inputs.head));
    && (j.payload.prior.Some? ==>
          j.payload.prior.value.of.PointerDoc? && Closed(Some(j.payload.prior.value.of.pointer)))
    && match j.phase
       case Prepared => prior && ((active == None && EventPending(d.ledger, j, false))
                               || (active == Some(j.id) && EventPending(d.ledger, j, true)))
       case LedgerAppended => prior && active == Some(j.id) && EventPending(d.ledger, j, true)
       case DirectoryCreated => (prior || isOpen) && active == Some(j.id) && EventPending(d.ledger, j, true)
       case _ => isOpen && active == Some(j.id) && EventPending(d.ledger, j, true)
  }

  predicate TerminalTied(d: Disk, active: Option<Digest>, j: Journal)
    requires WellShaped(j) && (j.kind == Abandon || j.kind == Reopen)
  {
    && d.pointer.Some?
    && var p := d.pointer.value;
    && p.attempt == j.inputs.attempt
    && var before := p.status == InitialStatus(j.kind) && j.payload.pointerSha == Digest(PointerDoc(p));
    && var after := p.status == FinalStatus(j.kind) && p.transition == Some(j.id);
    && match j.phase
       case Prepared => before && ((active == Some(p.attempt) && EventPending(d.ledger, j, false))
                                || (active == None && EventPending(d.ledger, j, true)))
       case LedgerAppended =>
         && (before || (j.kind == Reopen && after)) && active == None && EventPending(d.ledger, j, true)
       case TerminalWritten => (before || after) && active == None && EventPending(d.ledger, j, true)
       case _ => after && active == None && EventPending(d.ledger, j, true)
  }

  predicate SealTied(d: Disk, active: Option<Digest>, j: Journal)
    requires WellShaped(j) && j.kind == Seal
  {
    && d.pointer.Some?
    && var p := d.pointer.value;
    && p.attempt == j.inputs.attempt && p.head == j.inputs.head
    && active == Some(p.attempt)
    && LedgerSealedBy(d.ledger, j)
    && var before := p.status == Open && j.payload.pointerSha == Digest(PointerDoc(p));
    && var after := p.status == Sealed && p.sealId == Some(j.id);
    && match j.phase
       case Prepared => before
       case SealWritten => before || after
       case _ => after
  }

  predicate Tied(d: Disk, active: Option<Digest>, j: Journal)
    requires WellShaped(j)
  {
    match j.kind
    case Begin => BeginTied(d, active, j)
    case Abandon => TerminalTied(d, active, j)
    case Reopen => TerminalTied(d, active, j)
    case Seal => SealTied(d, active, j)
  }

  // ---- The invariant

  predicate LedgerSound(env: Environment, ledger: seq<Entry>) {
    ChainOk(env, ledger) && Bound(ledger) && Fold(ledger).Some?
  }

  function Active(ledger: seq<Entry>): Option<Digest> {
    match Fold(ledger)
    case None => None
    case Some(s) => s.active
  }

  predicate Situation(d: Disk, active: Option<Digest>)
    requires JournalsSound(d.journals)
  {
    && (PendingKeys(d.journals) == {} ==> Quiet(d, active))
    && forall k | k in PendingKeys(d.journals) :: Tied(d, active, d.journals[k])
  }

  /** What every disk satisfies, whatever is pending. */
  predicate Sound(env: Environment, d: Disk) {
    && LedgerSound(env, d.ledger)
    && JournalsSound(d.journals)
    && AtMostOnePending(d.journals)
    && CommittedHappened(d.ledger, d.journals)
    && EventsJournaled(d.ledger, d.journals)
    && PointerOwned(d)
    && SealHeld(d, Active(d.ledger))
  }

  predicate Inv(env: Environment, d: Disk) {
    Sound(env, d) && Situation(d, Active(d.ledger))
  }

  lemma CandidateIs(journals: map<JournalKey, Journal>, k: JournalKey)
    requires JournalsSound(journals) && PendingKeys(journals) == {k}
    ensures Candidate(journals) == Success(Some(k))
  {
    assert |PendingKeys(journals)| == 1;
    assert TheMember(PendingKeys(journals)) in {k};
  }

  lemma CandidateIsNone(journals: map<JournalKey, Journal>)
    requires JournalsSound(journals) && PendingKeys(journals) == {}
    ensures Candidate(journals) == Success(None)
  {
  }

  /** The two readings of the journal directory agree. */
  lemma PendingJournalIs(journals: map<JournalKey, Journal>)
    requires JournalsSound(journals) && AtMostOnePending(journals)
    ensures Candidate(journals).Success? && PendingJournal(journals) == Candidate(journals)
  {
    if PendingKeys(journals) == {} {
      CandidateIsNone(journals);
    } else {
      var k :| k in PendingKeys(journals);
      PendingIs(journals, k);
      CandidateIs(journals, k);
      assert |PendingKeys(journals)| == 1;
      assert TheMember(PendingKeys(journals)) in {k};
    }
  }

  lemma PendingIs(journals: map<JournalKey, Journal>, k: JournalKey)
    requires AtMostOnePending(journals) && k in PendingKeys(journals)
    ensures PendingKeys(journals) == {k}
  {
  }

  /** The state of a new evidence root: a genesis entry and nothing else. */
  predicate Initial(env: Environment, d: Disk) {
    d.ledger != [] && ChainOk(env, d.ledger) && |d.ledger| == 1 && d.pointer == None && d.journals == map[]
  }

  lemma InitialInv(env: Environment, d: Disk)
    requires Initial(env, d)
    ensures Inv(env, d)
  {
    assert Fold(d.ledger[..0]) == Some(Lifecycle(None, {}));
    FoldSnoc(d.ledger, 0);
    assert d.ledger[..1] == d.ledger;
    assert LinkOk(env, d.ledger, 0);
    assert d.ledger[0].event.action == "bootstrap";
    assert |"bootstrap"| == 9;
    assert "bootstrap" !in LIFECYCLE_ACTIONS;
  }
}
