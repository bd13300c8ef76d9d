/**
 * Appending a line of bytes is appending an entry to the lifecycle's ledger: exactly when a line
 * is planned, for ordinary requests and for the private request of a prepared transition.
 */
module LedgerRefinement {
  import opened Wrappers
  import opened Utf8
  import opened CanonicalJson
  import opened LedgerChain
  import opened LedgerFile
  import opened LedgerBridge
  import Model = AttemptModel
  import Ops = OperationsLedger
  import Steps = AttemptSteps
  import Invariant = AttemptInvariant
  import Theorems = AttemptTheorems
  import Transitions = AttemptTransitions
  import Effects = AttemptEffects

  /** The writer over a root whose pointer and journals are those of `d`: its gate is the lifecycle's. */
  function WriterOver(reading: Reading, rules: Rules, env: Model.Environment, d: Model.Disk): Writer {
    Writer(
      rules,
      (es: seq<Members>, request: Request) =>
        Ops.GateRefusal(d.(ledger := Seen(reading, es)), EventOf(reading, request.action, request.arguments),
                        request.status, request.lifecycle).None?,
      env.clock(|d.ledger|))
  }

  /** The file's history, read as the lifecycle reads it, is the root's ledger. */
  predicate Couples(reading: Reading, rules: Rules, data: seq<Byte>, d: Model.Disk) {
    History(rules, data).Some? && d.ledger == Seen(reading, History(rules, data).value)
  }

  /** The next entry has the fields and the digest that verification wants. */
  predicate WellFormed(writer: Writer, es: seq<Members>, request: Request) {
    var e := NewEntry(writer, es, request);
    CanonicalLine(Obj(e)).Success? && ValidEntry(writer.rules, e, |es|, DigestBefore(es, |es|))
  }

  predicate Expects(request: Request, es: seq<Members>) {
    request.expected.None? || request.expected == DigestBefore(es, |es|)
  }

  lemma NewEntryFields(writer: Writer, es: seq<Members>, request: Request)
    ensures
      var e := NewEntry(writer, es, request);
      && e.Keys == ENTRY_KEYS && e["schema_version"] == Num(1) && e["sequence"] == Num(|es|)
      && e["previous_entry_hash"] == PreviousField(DigestBefore(es, |es|))
      && e["timestamp_utc"] == Str(writer.stamp) && e["task_id"] == Str(request.task)
      && e["action_class"] == Str(request.action) && e["arguments"] == Obj(request.arguments)
      && e["status"] == Str(request.status)
      && e["entry_hash"] == Str(writer.rules.hash(HashedLine(Unsigned(writer, es, request))))
      && Unhashed(e) == Unsigned(writer, es, request) == Unhashed(Unsigned(writer, es, request))
  {
    hide HashedLine;
    var fields := Unsigned(writer, es, request);
    assert Unhashed(NewEntry(writer, es, request)) == fields == Unhashed(fields);
  }

  /** An entry's line exists exactly when its arguments hold no real number. */
  lemma NewEntryCanonical(writer: Writer, es: seq<Members>, request: Request)
    ensures
      var e := NewEntry(writer, es, request);
      && (CanonicalLine(Obj(e)).Success? <==> !HasReal(Obj(request.arguments)))
      && (CanonicalLine(Obj(Unhashed(e))).Success? <==> !HasReal(Obj(request.arguments)))
  {
    hide Text, Unhashed, Unsigned, NewEntry;
    var e := NewEntry(writer, es, request);
    NewEntryFields(writer, es, request);
    UnsignedReal(writer, es, request);
    var fields := Unsigned(writer, es, request);
    assert e == Unhashed(e)["entry_hash" := e["entry_hash"]] by { UnhashedAgain(e); }
    if CanonicalLine(Obj(fields)).Success? { StillCanonical(fields, "entry_hash", e["entry_hash"]); }
    assert HasReal(e["arguments"]) ==> HasReal(Obj(e));
  }

  lemma UnhashedAgain(e: Members)
    requires "entry_hash" in e
    ensures e == Unhashed(e)["entry_hash" := e["entry_hash"]]
  {
  }

  lemma UnsignedReal(writer: Writer, es: seq<Members>, request: Request)
    ensures HasReal(Obj(Unsigned(writer, es, request))) <==> HasReal(Obj(request.arguments))
  {
    var fields := Unsigned(writer, es, request);
    assert forall k <- fields :: k != "arguments" ==> !HasReal(fields[k]);
    assert "arguments" in fields && fields["arguments"] == Obj(request.arguments);
  }

  /** What a well-formed next entry asks of the request, the clock and the digest. */
  lemma WellFormedExactly(writer: Writer, es: seq<Members>, request: Request)
    requires es != [] && forall b :: HashShape(writer.rules.hash(b))
    ensures WellFormed(writer, es, request) <==>
      && !HasReal(Obj(request.arguments)) && IsTimestamp(writer.rules.decimal, writer.stamp)
      && IsIdentifier(request.task) && IsIdentifier(request.action) && IsIdentifier(request.status)
      && writer.rules.safe(request.arguments)
  {
    hide CanonicalLine, IsTimestamp, IsIdentifier, HashShape, HasReal, NewEntry, Unsigned, Unhashed;
    NewEntryFields(writer, es, request);
    NewEntryCanonical(writer, es, request);
  }

  lemma NewEntrySeen(writer: Writer, es: seq<Members>, request: Request)
    ensures
      var e := NewEntry(writer, es, request);
      && Action(e) == request.action && Arguments(e) == request.arguments && TextAt(e, "status") == request.status
      && TextAt(e, "task_id") == request.task && TextAt(e, "timestamp_utc") == writer.stamp && Number(e) == |es|
  {
    hide CanonicalLine, HashedLine;
  }

  lemma SealTipSeen(reading: Reading, es: seq<Members>)
    requires es != [] && HasStr(es[|es| - 1], "action_class") && HasStr(es[|es| - 1], "status")
    ensures IsPassedSeal(es[|es| - 1]) <==> Ops.TipIsPassedSeal(Seen(reading, es))
  {
    hide Text, EventOf, Seen, Ops.ActionName;
    var e := es[|es| - 1];
    SeenAt(reading, es, |es| - 1);
    EventKeepsAction(reading, Action(e), Arguments(e));
  }

  lemma VerifiedTip(rules: Rules, data: seq<Byte>, es: seq<Members>)
    requires Verified(rules, data) == Success(es)
    ensures es != [] && HasStr(es[|es| - 1], "action_class") && HasStr(es[|es| - 1], "status")
  {
    hide Verified, CanonicalLine, FileOf, IsTimestamp, IsIdentifier, HashShape;
    VerifiedExactly(rules, data, es);
    assert LinkValid(rules, es, |es| - 1);
  }

  lemma RepairedHistory(rules: Rules, data: seq<Byte>)
    requires History(rules, data).Some?
    ensures Recovered(rules, data).Success?
    ensures Verified(rules, Recovered(rules, data).value) == Success(History(rules, data).value)
  {
    hide Verified, Recovered;
  }

  /** The entry that a planned line adds is the one that the lifecycle's append adds. */
  lemma NextEntrySeen(reading: Reading, rules: Rules, env: Model.Environment, d: Model.Disk, es: seq<Members>,
      request: Request)
    requires es != [] && d.ledger == Seen(reading, es)
    ensures
      var e := NewEntry(WriterOver(reading, rules, env, d), es, request);
      Seen(reading, es + [e]) == d.ledger
        + [Ops.NextEntry(env, d.ledger, request.task, EventOf(reading, request.action, request.arguments),
          request.status)]
  {
    hide Text, EventOf, NewEntry, Number, Action, Arguments, TextAt;
    var writer := WriterOver(reading, rules, env, d);
    NewEntrySeen(writer, es, request);
    assert (es + [NewEntry(writer, es, request)])[..|es|] == es;
  }

  /** The event of a request that claims the right surface for its action. */
  lemma RequestEvent(reading: Reading, request: Request)
    ensures Ops.ActionName(EventOf(reading, request.action, request.arguments)) == request.action
  {
    EventKeepsAction(reading, request.action, request.arguments);
  }

  /**
   * Exactly when a line is planned over a root whose ledger the file holds: its arguments are
   * safe, the next entry is well formed, the expected tip is the tip, and the lifecycle's append
   * succeeds.  The ledger that the lifecycle then has is the file's.
   */
  lemma PlansExactly(reading: Reading, rules: Rules, env: Model.Environment, d: Model.Disk, data: seq<Byte>,
      request: Request)
    requires Admits(reading, env, rules) && Couples(reading, rules, data, d)
    ensures
      var writer := WriterOver(reading, rules, env, d);
      var es := History(rules, data).value;
      var event := EventOf(reading, request.action, request.arguments);
      var appended := Ops.Append(env, d, request.task, event, request.status, None, request.lifecycle);
      && (PlanFor(writer, data, request).Success? <==>
            rules.safe(request.arguments) && WellFormed(writer, es, request) && Expects(request, es)
              && appended.Success?)
      && (PlanFor(writer, data, request).Success? ==>
            var plan := PlanFor(writer, data, request).value;
            plan.entries == es && appended == Success(Seen(reading, es + [plan.entry])))
  {
    hide Verified, Recovered, ValidEntry, CanonicalLine, Text, Admits, Ops.ChainOk, Ops.GateRefusal, NewEntry, Seen,
      EventOf, History, Ops.ActionName, IsPassedSeal, Ops.TipIsPassedSeal;
    var writer := WriterOver(reading, rules, env, d);
    var es := History(rules, data).value;
    RepairedHistory(rules, data);
    var base := Recovered(rules, data).value;
    VerifiedIsChain(reading, env, rules, base, es);
    VerifiedTip(rules, base, es);
    SealTipSeen(reading, es);
    RequestEvent(reading, request);
    NextEntrySeen(reading, rules, env, d, es, request);
    assert d.(ledger := Seen(reading, es)) == d;
    if WellFormed(writer, es, request) { WellFormedAdmitted(reading, rules, env, d, es, request); }
  }

  lemma WellFormedAdmitted(reading: Reading, rules: Rules, env: Model.Environment, d: Model.Disk, es: seq<Members>,
      request: Request)
    requires Admits(reading, env, rules) && es != [] && WellFormed(WriterOver(reading, rules, env, d), es, request)
    ensures env.admissible(request.task, EventOf(reading, request.action, request.arguments), request.status)
  {
    hide ValidEntry, CanonicalLine, EventOf, NewEntry;
    var writer := WriterOver(reading, rules, env, d);
    NewEntrySeen(writer, es, request);
    EntryAdmitted(reading, env, rules, NewEntry(writer, es, request), |es|, DigestBefore(es, |es|));
  }

  // ---- What every exit leaves ---------------------------------------------------------------

  /**
   * However an append ends, the file still holds the root's ledger, or the ledger that the
   * lifecycle's append gives; the latter after every return.
   */
  lemma ExitCouples(reading: Reading, rules: Rules, env: Model.Environment, d: Model.Disk, data: seq<Byte>,
      request: Request, exit: Exit, after: seq<Byte>)
    requires Admits(reading, env, rules) && Couples(reading, rules, data, d)
    requires Leaves(WriterOver(reading, rules, env, d), request, data, exit, after)
    ensures
      var event := EventOf(reading, request.action, request.arguments);
      var appended := Ops.Append(env, d, request.task, event, request.status, None, request.lifecycle);
      && (Couples(reading, rules, after, d)
          || (appended.Success? && Couples(reading, rules, after, d.(ledger := appended.value))))
      && (exit.Returned? ==> appended.Success? && Couples(reading, rules, after, d.(ledger := appended.value)))
  {
    hide Ops.Append, PlanFor, History, Seen, EventOf;
    var writer := WriterOver(reading, rules, env, d);
    PlansExactly(reading, rules, env, d, data, request);
    AppendIsAtomic(writer, request, data, exit, after);
    ExitFits(writer, request, data, exit, after);
  }

  // ---- Ordinary requests ----------------------------------------------------------------------

  /** Exactly when an ordinary request is planned, in every reachable state of the root. */
  lemma OrdinaryPlansExactly(reading: Reading, rules: Rules, env: Model.Environment, d: Model.Disk, data: seq<Byte>,
      request: Request)
    requires Admits(reading, env, rules) && Couples(reading, rules, data, d) && Invariant.Inv(env, d)
    requires !request.lifecycle
    ensures
      var writer := WriterOver(reading, rules, env, d);
      var es := History(rules, data).value;
      PlanFor(writer, data, request).Success? <==>
        && rules.safe(request.arguments) && WellFormed(writer, es, request) && Expects(request, es)
        && request.action !in Ops.LIFECYCLE_ACTIONS && Ops.PendingKeys(d.journals) == {}
        && !(d.pointer.Some? && d.pointer.value.status == Model.Sealed)
        && d.ledger != [] && !Ops.TipIsPassedSeal(d.ledger)
  {
    hide Invariant.Inv, PlanFor, History, Seen, Text, WellFormed;
    PlansExactly(reading, rules, env, d, data, request);
    Effects.InvSound(env, d);
    if request.action in Ops.LIFECYCLE_ACTIONS {
      RequestEvent(reading, request);
    } else {
      OrdinaryEvent(reading, request.action, request.arguments);
      Theorems.OrdinaryAppendAdmitted(env, d, request.task, request.action, Text(Obj(request.arguments)),
        request.status, None);
      CoupledAdmits(reading, rules, env, d, data, request);
    }
  }

  lemma OrdinaryEvent(reading: Reading, action: string, arguments: Members)
    requires action !in Ops.LIFECYCLE_ACTIONS
    ensures EventOf(reading, action, arguments) == Model.Ordinary(action, Text(Obj(arguments)))
  {
    hide Text;
  }

  lemma CoupledAdmits(reading: Reading, rules: Rules, env: Model.Environment, d: Model.Disk, data: seq<Byte>,
      request: Request)
    requires Admits(reading, env, rules) && Couples(reading, rules, data, d)
    ensures WellFormed(WriterOver(reading, rules, env, d), History(rules, data).value, request) ==>
      env.admissible(request.task, EventOf(reading, request.action, request.arguments), request.status)
  {
    hide Verified, Recovered, History, WellFormed, EventOf, Admits;
    RepairedHistory(rules, data);
    VerifiedTip(rules, Recovered(rules, data).value, History(rules, data).value);
    if WellFormed(WriterOver(reading, rules, env, d), History(rules, data).value, request) {
      WellFormedAdmitted(reading, rules, env, d, History(rules, data).value, request);
    }
  }

  // ---- The private request of a prepared transition ---------------------------------------------

  /** The texts that a journal stores for the digests and the path of its event. */
  datatype Spelling = Spelling(id: string, attempt: string, failurePath: string, failureSha: string)

  predicate Spells(reading: Reading, text: string, digest: Model.Digest) {
    IsHex(text, 64) && reading.digest(text) == digest
  }

  /** The texts stand for what the journal's event names, and have the shape that stored journals have. */
  predicate SpelledOut(reading: Reading, j: Model.Journal, texts: Spelling)
    requires Model.WellShaped(j) && j.kind != Model.Seal
  {
    && Spells(reading, texts.id, j.id)
    && if j.kind == Model.Begin then IsHex(j.inputs.head, 40)
       else
         && Spells(reading, texts.attempt, j.inputs.attempt) && Spells(reading, texts.failureSha, j.inputs.failureSha)
         && texts.failurePath != "" && reading.path(texts.failurePath) == j.inputs.failurePath
  }

  function PrivateAction(kind: Model.Kind): string {
    match kind
    case Begin => "final_attempt_started"
    case Abandon => "final_attempt_abandoned"
    case _ => "seal_reopened"
  }

  /** `_expected_journal_event`, written out. */
  function PrivateArguments(j: Model.Journal, texts: Spelling): Members
    requires Model.WellShaped(j) && j.kind != Model.Seal
  {
    if j.kind == Model.Begin then map["attempt_id" := Str(texts.id), "head" := Str(j.inputs.head)]
    else map[
      TransitionKey(PrivateAction(j.kind)) := Str(texts.id),
      "attempt_id" := Str(texts.attempt),
      "failure_path" := Str(texts.failurePath),
      "failure_sha256" := Str(texts.failureSha)]
  }

  function PrivateRequest(j: Model.Journal, texts: Spelling, tip: Option<string>): Request
    requires Model.WellShaped(j) && j.kind != Model.Seal
  {
    Request("final-attempt", PrivateAction(j.kind), PrivateArguments(j, texts), "passed", tip, true)
  }

  /** The written request stands for the journal's one event. */
  lemma PrivateEvent(reading: Reading, j: Model.Journal, texts: Spelling)
    requires Model.WellShaped(j) && j.kind != Model.Seal && SpelledOut(reading, j, texts)
    ensures EventOf(reading, PrivateAction(j.kind), PrivateArguments(j, texts)) == Ops.ExpectedEvent(j)
    ensures !HasReal(Obj(PrivateArguments(j, texts)))
    ensures IsIdentifier("final-attempt") && IsIdentifier("passed") && IsIdentifier(PrivateAction(j.kind))
  {
    hide Text, IsHex;
    PrivateIdentifiers();
    assert "abandon_id" != "reopen_id" && "abandon_id" != "attempt_id" && "reopen_id" != "attempt_id";
    var action, arguments := PrivateAction(j.kind), PrivateArguments(j, texts);
    assert j.kind == Model.Begin ==> IsStarted(action, arguments);
    assert j.kind != Model.Begin ==> IsEnded(action, arguments) && !IsStarted(action, arguments);
    assert forall k <- arguments :: arguments[k].Str?;
  }

  lemma LowerIdentifier(s: string)
    requires 1 <= |s| <= 64 && 'a' <= s[0] <= 'z' && forall c <- s :: 'a' <= c <= 'z' || c in "_-"
    ensures IsIdentifier(s)
  {
  }

  lemma PrivateIdentifiers()
    ensures IsIdentifier("final-attempt") && IsIdentifier("passed") && IsIdentifier("final_attempt_started")
    ensures IsIdentifier("final_attempt_abandoned") && IsIdentifier("seal_reopened")
  {
    hide IsIdentifier;
    LowerIdentifier("final-attempt");
    LowerIdentifier("passed");
    LowerIdentifier("final_attempt_started");
    LowerIdentifier("final_attempt_abandoned");
    LowerIdentifier("seal_reopened");
  }

  /**
   * Exactly when the event of a prepared begin, abandon or reopen is planned as a line: its
   * arguments are safe and the lifecycle's ledger accepts it.  The file then holds the ledger
   * with that event.
   */
  lemma PrivatePlansExactly(reading: Reading, rules: Rules, env: Model.Environment, d: Model.Disk, data: seq<Byte>,
      j: Model.Journal, texts: Spelling)
    requires Admits(reading, env, rules) && Couples(reading, rules, data, d) && Invariant.Inv(env, d)
    requires Steps.IsPending(d, j) && j.phase == Model.Prepared && j.kind != Model.Seal
    requires Ops.Events(d.ledger, Ops.ExpectedEvent(j)) == [] && SpelledOut(reading, j, texts)
    requires IsTimestamp(rules.decimal, env.clock(|d.ledger|)) && forall b :: HashShape(rules.hash(b))
    ensures
      var es := History(rules, data).value;
      var request := PrivateRequest(j, texts, DigestBefore(es, |es|));
      var planned := PlanFor(WriterOver(reading, rules, env, d), data, request);
      && d.ledger != []
      && (planned.Success? <==> rules.safe(request.arguments) && Effects.LedgerAccepts(env, d.ledger, j))
      && (planned.Success? ==>
            Seen(reading, es + [planned.value.entry]) == d.ledger + [Effects.EventEntry(env, d.ledger, j)])
  {
    hide Invariant.Inv, PlanFor, History, Seen, WellFormed, Ops.Append, HasReal, IsTimestamp, IsIdentifier, HashShape;
    var es := History(rules, data).value;
    var request := PrivateRequest(j, texts, DigestBefore(es, |es|));
    Effects.InvSound(env, d);
    PrivateEvent(reading, j, texts);
    PlansExactly(reading, rules, env, d, data, request);
    WellFormedExactly(WriterOver(reading, rules, env, d), es, request);
    PrivateAppendSucceeds(env, d, j);
  }

  /** The private append does not depend on whether the tip it expects is named. */
  lemma PrivateAppendSucceeds(env: Model.Environment, d: Model.Disk, j: Model.Journal)
    requires Invariant.Inv(env, d) && Steps.IsPending(d, j) && j.phase == Model.Prepared && j.kind != Model.Seal
    requires Ops.Events(d.ledger, Ops.ExpectedEvent(j)) == []
    ensures d.ledger != []
    ensures
      var appended := Ops.Append(env, d, "final-attempt", Ops.ExpectedEvent(j), "passed", None, true);
      && (appended.Success? <==> Effects.LedgerAccepts(env, d.ledger, j))
      && (appended.Success? ==> appended.value == d.ledger + [Effects.EventEntry(env, d.ledger, j)])
  {
    hide Ops.GateRefusal, Ops.ChainOk, Ops.Fold;
    Effects.InvSound(env, d);
    assert Transitions.KeyOf(j) in Ops.PendingKeys(d.journals);
    Effects.PrivateAppend(env, d, j);
  }

  /** The same from the command that prepares the journal on a quiet root. */
  lemma PreparedPlansExactly(reading: Reading, rules: Rules, env: Model.Environment, d: Model.Disk, data: seq<Byte>,
      cmd: Model.Command, texts: Spelling)
    requires Admits(reading, env, rules) && Couples(reading, rules, data, d) && Invariant.Inv(env, d)
    requires Ops.PendingKeys(d.journals) == {} && !cmd.SealCommand? && Transitions.Prepare(env, cmd, d).Success?
    requires SpelledOut(reading, Transitions.Prepare(env, cmd, d).value, texts)
    requires IsTimestamp(rules.decimal, env.clock(|d.ledger|)) && forall b :: HashShape(rules.hash(b))
    ensures
      var j := Transitions.Prepare(env, cmd, d).value;
      var prepared := Transitions.PutJournal(d, j);
      var es := History(rules, data).value;
      var request := PrivateRequest(j, texts, DigestBefore(es, |es|));
      && d.ledger != []
      && (PlanFor(WriterOver(reading, rules, env, prepared), data, request).Success?
          <==> rules.safe(request.arguments) && Effects.LedgerAccepts(env, d.ledger, j))
  {
    hide Invariant.Inv, PlanFor, History, Seen, Transitions.Prepare, IsTimestamp, HashShape, SpelledOut;
    Effects.PreparedIsValid(env, cmd, d);
    var j := Transitions.Prepare(env, cmd, d).value;
    PrivatePlansExactly(reading, rules, env, Transitions.PutJournal(d, j), data, j, texts);
  }

  /** A new ledger file holds the ledger of a new root. */
  lemma GenesisCouples(reading: Reading, rules: Rules, env: Model.Environment, facts: Members, stamp: string)
    requires Admits(reading, env, rules) && !HasReal(Obj(facts)) && rules.genesis(facts)
    requires IsTimestamp(rules.decimal, stamp) && HashShape(rules.hash(HashedLine(Genesis(rules, facts, stamp))))
    ensures
      var e := Genesis(rules, facts, stamp);
      var d := Model.Disk(Seen(reading, [e]), None, map[], map[], map[]);
      Couples(reading, rules, LineOf(e), d) && Invariant.Initial(env, d)
  {
    hide Verified, HasReal, IsTimestamp, HashShape, Genesis, Ops.ChainOk, Seen, LineOf, Recovered;
    var e := Genesis(rules, facts, stamp);
    GenesisVerifies(rules, facts, stamp);
    VerifiedIsChain(reading, env, rules, LineOf(e), [e]);
    VerifiedHistory(rules, LineOf(e), [e]);
  }

  lemma VerifiedHistory(rules: Rules, data: seq<Byte>, es: seq<Members>)
    requires Verified(rules, data) == Success(es)
    ensures History(rules, data) == Some(es)
  {
    hide Verified;
    VerifiedEndsLine(rules, data);
  }
}
