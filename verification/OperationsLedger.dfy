/**
 The verified ledger as the lifecycle sees it: chain validity, the fold that derives the active
 attempt, and the gate that every append passes.
 */
module OperationsLedger {
  import opened Wrappers
  import opened AttemptModel

  function EntryHash(e: Entry): Digest {
    Digest(EntryDoc(e))
  }

  function ActionName(e: Event): string {
    match e
    case Started(_, _) => "final_attempt_started"
    case AttemptAbandoned(_, _, _, _) => "final_attempt_abandoned"
    case SealReopened(_, _, _, _) => "seal_reopened"
    case Ordinary(action, _) => action
  }

  const LIFECYCLE_ACTIONS: set<string> :=
    {"final_attempt_started", "final_attempt_abandoned", "seal_reopened"}

  predicate IsGenesis(e: Entry) {
    e.task == "02" && e.event.Ordinary? && e.event.action == "bootstrap"
  }

  /** `_validate_entry` on a decoded entry whose own hash has been recomputed. */
  predicate EntryOk(env: Environment, e: Entry, sequence: nat, previous: Option<Digest>) {
    && e.sequence == sequence
    && e.previous == previous
    && if sequence == 0 then IsGenesis(e) else env.admissible(e.task, e.event, e.status)
  }

  function HashBefore(ledger: seq<Entry>, i: nat): Option<Digest>
    requires i <= |ledger|
  {
    if i == 0 then None else Some(EntryHash(ledger[i-1]))
  }

  predicate LinkOk(env: Environment, ledger: seq<Entry>, i: nat)
    requires i < |ledger|
  {
    EntryOk(env, ledger[i], i, HashBefore(ledger, i))
  }

  /** `_verify_bytes` over decoded entries: sequence numbers, hash links and per-entry checks. */
  predicate ChainOk(env: Environment, ledger: seq<Entry>) {
    && ledger != []
    && forall i | 0 <= i < |ledger| :: LinkOk(env, ledger, i)
  }

  function Tip(ledger: seq<Entry>): Digest
    requires ledger != []
  {
    EntryHash(ledger[|ledger|-1])
  }

  // ---- The active attempt

  datatype Lifecycle = Lifecycle(active: Option<Digest>, seen: set<Digest>)

  /** One turn of the loop that derives the active attempt; `None` is a rejected relation. */
  function FoldEntry(s: Lifecycle, e: Entry): Option<Lifecycle> {
    match e.event
    case Ordinary(action, _) => if action in LIFECYCLE_ACTIONS then None else Some(s)
    case Started(attempt, _) =>
      if e.status != "passed" || s.active.Some? || attempt in s.seen then None
      else Some(Lifecycle(Some(attempt), s.seen + {attempt}))
    case AttemptAbandoned(_, attempt, _, _) =>
      if e.status != "passed" || s.active != Some(attempt) then None
      else Some(s.(active := None))
    case SealReopened(_, attempt, _, _) =>
      if e.status != "passed" || s.active != Some(attempt) then None
      else Some(s.(active := None))
  }

  function Fold(ledger: seq<Entry>): Option<Lifecycle> {
    if ledger == [] then Some(Lifecycle(None, {}))
    else
      match Fold(ledger[..|ledger|-1])
      case None => None
      case Some(s) => FoldEntry(s, ledger[|ledger|-1])
  }

  /** The loop of `_active_attempt_from_lifecycle`, with its early exits. */
  method ActiveAttempt(entries: seq<Entry>) returns (r: Result<Option<Digest>, Refusal>)
    ensures r == match Fold(entries)
                 case None => Failure(LifecycleRelationInvalid)
                 case Some(s) => Success(s.active)
  {
    var active: Option<Digest> := None;
    var seen: set<Digest> := {};
    var i := 0;
    while i < |entries|
      invariant 0 <= i <= |entries|
      invariant Fold(entries[..i]) == Some(Lifecycle(active, seen))
    {
      var entry := entries[i];
      FoldSnoc(entries, i);
      match entry.event {
        case Ordinary(action, _) =>
          if action in LIFECYCLE_ACTIONS {
            FoldFails(entries, i + 1);
            return Failure(LifecycleRelationInvalid);
          }
        case Started(attempt, _) =>
          if entry.status != "passed" || active.Some? || attempt in seen {
            FoldFails(entries, i + 1);
            return Failure(LifecycleRelationInvalid);
          }
          seen := seen + {attempt};
          active := Some(attempt);
        case AttemptAbandoned(_, attempt, _, _) =>
          if entry.status != "passed" || active != Some(attempt) {
            FoldFails(entries, i + 1);
            return Failure(LifecycleRelationInvalid);
          }
          active := None;
        case SealReopened(_, attempt, _, _) =>
          if entry.status != "passed" || active != Some(attempt) {
            FoldFails(entries, i + 1);
            return Failure(LifecycleRelationInvalid);
          }
          active := None;
      }
      i := i + 1;
    }
    assert entries[..i] == entries;
    return Success(active);
  }

  lemma FoldSnoc(ledger: seq<Entry>, i: nat)
    requires i < |ledger|
    ensures Fold(ledger[..i+1]) == match Fold(ledger[..i])
                                   case None => None
                                   case Some(s) => FoldEntry(s, ledger[i])
  {
    assert ledger[..i+1][..i] == ledger[..i];
  }

  /** A rejected prefix rejects the whole ledger. */
  lemma {:induction false} FoldFails(ledger: seq<Entry>, i: nat)
    requires i <= |ledger|
    requires Fold(ledger[..i]) == None
    ensures Fold(ledger) == None
    decreases |ledger| - i
  {
    if i == |ledger| {
      assert ledger[..i] == ledger;
    } else {
      FoldSnoc(ledger, i);
      FoldFails(ledger, i + 1);
    }
  }

  // ---- Matching events

  predicate Matches(e: Entry, event: Event) {
    e.event == event && e.task == "final-attempt" && e.status == "passed"
  }

  /** `_events`: the entries that record exactly this lifecycle event, in ledger order. */
  function Events(ledger: seq<Entry>, event: Event): seq<Entry> {
    if ledger == [] then []
    else
      var rest := Events(ledger[..|ledger|-1], event);
      var e := ledger[|ledger|-1];
      if Matches(e, event) then rest + [e] else rest
  }

  /** The one ledger event a prepared journal is allowed to append. */
  function ExpectedEvent(j: Journal): Event
    requires WellShaped(j) && j.kind != Seal
  {
    match j.kind
    case Begin => Started(j.id, j.inputs.head)
    case Abandon => AttemptAbandoned(j.id, j.inputs.attempt, j.inputs.failurePath, j.inputs.failureSha)
    case Reopen => SealReopened(j.id, j.inputs.attempt, j.inputs.failurePath, j.inputs.failureSha)
  }

  // ---- Pending journals

  function PendingKeys(journals: map<JournalKey, Journal>): set<JournalKey> {
    set k | k in journals && journals[k].phase != Committed
  }

  lemma SingletonMember<T>(s: set<T>, x: T, y: T)
    requires |s| == 1 && x in s && y in s
    ensures x == y
  {
    if x != y {
      assert {x, y} <= s;
      SubsetSize({x, y}, s);
    }
  }

  lemma {:induction false} SubsetSize<T>(a: set<T>, b: set<T>)
    requires a <= b
    ensures |a| <= |b|
  {
    if a != {} {
      var x :| x in a;
      SubsetSize(a - {x}, b - {x});
    }
  }

  function TheMember<T(!new)>(s: set<T>): (x: T)
    requires |s| == 1
    ensures s == {x}
  {
    assert s != {};
    assert forall a, b | a in s && b in s :: a == b by {
      forall a, b | a in s && b in s ensures a == b { SingletonMember(s, a, b); }
    }
    var x :| x in s;
    x
  }

  /** Read every journal and return the only nonterminal one, if any. */
  function Candidate(journals: map<JournalKey, Journal>): (r: Result<Option<JournalKey>, Refusal>)
    ensures r.Success? && r.value.Some? ==>
              && r.value.value in journals
              && WellShaped(journals[r.value.value])
              && PendingKeys(journals) == {r.value.value}
    ensures r.Success? && r.value.None? ==> PendingKeys(journals) == {}
  {
    if exists k | k in journals :: !WellShaped(journals[k]) then Failure(JournalImpossible)
    else
      var pending := PendingKeys(journals);
      if pending == {} then Success(None)
      else if |pending| == 1 then Success(Some(TheMember(pending)))
      else Failure(MultipleNonterminalJournals)
  }

  /**
   `_pending_lifecycle_journal`: the writer's reading of the same directory. A journal that it
   does not trust and a second nonterminal one are one refusal, since either may be met first.
   */
  function PendingJournal(journals: map<JournalKey, Journal>): (r: Result<Option<JournalKey>, Refusal>)
    ensures r.Success? && r.value.Some? ==>
              && r.value.value in journals
              && PendingKeys(journals) == {r.value.value}
    ensures r.Success? && r.value.None? ==> PendingKeys(journals) == {}
  {
    var pending := PendingKeys(journals);
    if (exists k | k in journals :: !TrustedJournal(journals[k])) || |pending| > 1 then Failure(JournalUntrusted)
    else if pending == {} then Success(None)
    else
      assert |pending| == 1;
      Success(Some(TheMember(pending)))
  }

  // ---- The append gate

  /** `_reject_external_seal`: fold, pending journal and pointer must all admit this append. */
  function GateRefusal(d: Disk, event: Event, status: string, lifecycle: bool): Option<Refusal> {
    match Fold(d.ledger)
    case None => Some(LifecycleRelationInvalid)
    case Some(s) =>
      match PendingJournal(d.journals)
      case Failure(e) => Some(e)
      case Success(pending) =>
        if pending.Some? && !lifecycle then Some(AnotherTransitionNonterminal)
        else if lifecycle && !IsThePendingEvent(d, pending, event, status) then Some(NotThePendingTransition)
        else
          match d.pointer
          case None => if s.active.Some? then Some(PointerDisagrees) else None
          case Some(p) =>
            if !TrustedPointer(p) then Some(PointerInvalid)
            else if p.status in {Open, Sealed} && s.active != Some(p.attempt) then Some(PointerDisagrees)
            else if p.status in {Abandoned, Reopened} && s.active.Some? then Some(PointerDisagrees)
            else if p.status == Sealed && !(lifecycle && event.SealReopened?) then Some(ExternallySealed)
            else None
  }

  /** `_validate_private_lifecycle_transition`. */
  predicate IsThePendingEvent(d: Disk, pending: Option<JournalKey>, event: Event, status: string) {
    && pending.Some?
    && pending.value in d.journals
    && var j := d.journals[pending.value];
    && j.phase == Prepared
    && status == "passed"
    && WellShaped(j)
    && j.kind != Seal
    && j.id == Digest(InputsDoc(j.inputs))
    && event == ExpectedEvent(j)
  }

  predicate TipIsPassedSeal(ledger: seq<Entry>)
    requires ledger != []
  {
    var tip := ledger[|ledger|-1];
    ActionName(tip.event) == "seal" && tip.status == "passed"
  }

  function NextEntry(env: Environment, ledger: seq<Entry>, task: string, event: Event, status: string): Entry
    requires ledger != []
  {
    Entry(|ledger|, Some(Tip(ledger)), env.clock(|ledger|), task, event, status)
  }

  /** `_append_operation_bound` on decoded entries: the extended ledger, or the refusal. */
  function Append(env: Environment, d: Disk, task: string, event: Event, status: string,
                  expected: Option<Digest>, lifecycle: bool): (r: Result<seq<Entry>, Refusal>)
    ensures r.Success? ==> d.ledger < r.value && |r.value| == |d.ledger| + 1
  {
    if ActionName(event) in LIFECYCLE_ACTIONS && !lifecycle then Failure(PrivateActionRequired)
    else if ActionName(event) !in LIFECYCLE_ACTIONS && lifecycle then Failure(PrivateActionRequired)
    else if !env.admissible(task, event, status) then Failure(NotAdmissible)
    else if !ChainOk(env, d.ledger) then Failure(LedgerInvalid)
    else
      match GateRefusal(d, event, status, lifecycle)
      case Some(e) => Failure(e)
      case None =>
        if TipIsPassedSeal(d.ledger) then Failure(LedgerSealed)
        else if expected.Some? && expected.value != Tip(d.ledger) then Failure(PreviousHashMismatch)
        else Success(d.ledger + [NextEntry(env, d.ledger, task, event, status)])
  }
}
