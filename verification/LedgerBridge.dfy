/**
 * The ledger's bytes read as the lifecycle reads them: verified entries are a chain of the
 * lifecycle's ledger, the fold over JSON entries is the fold over lifecycle events, and an
 * append of bytes is an append of an entry.
 */
module LedgerBridge {
  import opened Wrappers
  import opened Utf8
  import opened CanonicalJson
  import opened LedgerChain
  import opened LedgerFile
  import Model = AttemptModel
  import Ops = OperationsLedger
  import Guarantees = AttemptGuarantees

  // ---- Entries ---------------------------------------------------------------------------

  /** Which digest a hexadecimal text stands for, and which file a stored path. */
  datatype Reading = Reading(digest: string -> Model.Digest, path: string -> Model.Path)

  /** Different texts stand for different digests. */
  ghost predicate Injective(reading: Reading) {
    forall a, b :: reading.digest(a) == reading.digest(b) ==> a == b
  }

  predicate IsHex(s: string, length: nat) {
    |s| == length && forall c <- s :: '0' <= c <= '9' || 'a' <= c <= 'f'
  }

  predicate HasHex(arguments: Members, key: string, length: nat) {
    HasStr(arguments, key) && IsHex(arguments[key].text, length)
  }

  predicate IsStarted(action: string, arguments: Members) {
    && action == "final_attempt_started" && arguments.Keys == {"attempt_id", "head"}
    && HasHex(arguments, "attempt_id", 64) && HasHex(arguments, "head", 40)
  }

  function TransitionKey(action: string): string {
    if action == "final_attempt_abandoned" then "abandon_id" else "reopen_id"
  }

  predicate IsEnded(action: string, arguments: Members) {
    && action in {"final_attempt_abandoned", "seal_reopened"}
    && arguments.Keys == {TransitionKey(action), "attempt_id", "failure_path", "failure_sha256"}
    && HasHex(arguments, "attempt_id", 64) && HasHex(arguments, TransitionKey(action), 64)
    && HasHex(arguments, "failure_sha256", 64)
    && HasStr(arguments, "failure_path") && arguments["failure_path"].text != ""
  }

  /** The event that an operation records; a lifecycle action without its exact arguments stays ordinary. */
  function EventOf(reading: Reading, action: string, arguments: Members): Model.Event {
    if IsStarted(action, arguments) then Model.Started(reading.digest(arguments["attempt_id"].text),
      arguments["head"].text)
    else if IsEnded(action, arguments) then
      var attempt := reading.digest(arguments["attempt_id"].text);
      var transition := reading.digest(arguments[TransitionKey(action)].text);
      var path := reading.path(arguments["failure_path"].text);
      var sha := reading.digest(arguments["failure_sha256"].text);
      if action == "final_attempt_abandoned" then Model.AttemptAbandoned(transition, attempt, path, sha)
      else Model.SealReopened(transition, attempt, path, sha)
    else Model.Ordinary(action, Text(Obj(arguments)))
  }

  lemma EventKeepsAction(reading: Reading, action: string, arguments: Members)
    ensures Ops.ActionName(EventOf(reading, action, arguments)) == action
  {
    hide Text;
  }

  function Action(e: Members): string { if HasStr(e, "action_class") then e["action_class"].text else "" }

  function Arguments(e: Members): Members {
    if "arguments" in e && e["arguments"].Obj? then e["arguments"].members else map[]
  }

  function TextAt(e: Members, key: string): string { if HasStr(e, key) then e[key].text else "" }

  /** The stored sequence number; a boolean is the number it equals. */
  function Number(e: Members): nat {
    if "sequence" !in e then 0
    else
      match e["sequence"]
      case Num(n) => if n < 0 then 0 else n
      case Bool(b) => if b then 1 else 0
      case _ => 0
  }

  function Previous(ledger: seq<Model.Entry>): Option<Model.Digest> { Ops.HashBefore(ledger, |ledger|) }

  /** The entry as the lifecycle sees it, on top of the ledger before it. */
  function EntryOn(reading: Reading, ledger: seq<Model.Entry>, e: Members): Model.Entry {
    Model.Entry(Number(e), Previous(ledger), TextAt(e, "timestamp_utc"), TextAt(e, "task_id"),
            EventOf(reading, Action(e), Arguments(e)), TextAt(e, "status"))
  }

  function Seen(reading: Reading, es: seq<Members>): (ledger: seq<Model.Entry>)
    ensures |ledger| == |es|
  {
    if es == [] then []
    else
      var before := Seen(reading, es[..|es| - 1]);
      before + [EntryOn(reading, before, es[|es| - 1])]
  }

  lemma {:induction false} SeenPrefix(reading: Reading, es: seq<Members>, n: nat)
    requires n <= |es|
    ensures Seen(reading, es)[..n] == Seen(reading, es[..n])
    decreases |es|
  {
    if n == |es| {
      assert es[..n] == es && Seen(reading, es)[..n] == Seen(reading, es);
    } else {
      SeenPrefix(reading, es[..|es| - 1], n);
      assert es[..|es| - 1][..n] == es[..n];
      assert Seen(reading, es)[..n] == Seen(reading, es[..|es| - 1])[..n];
    }
  }

  lemma SeenAt(reading: Reading, es: seq<Members>, i: nat)
    requires i < |es|
    ensures Seen(reading, es)[i] == EntryOn(reading, Seen(reading, es[..i]), es[i])
      && Seen(reading, es)[..i] == Seen(reading, es[..i])
  {
    SeenPrefix(reading, es, i + 1);
    SeenPrefix(reading, es, i);
    assert es[..i + 1][..i] == es[..i];
    assert Seen(reading, es)[i] == Seen(reading, es)[..i + 1][i];
  }

  // ---- Verified files are chains ------------------------------------------------------------

  /** The lifecycle admits what the byte-level rules admit. */
  ghost predicate Admits(reading: Reading, env: Model.Environment, rules: Rules) {
    forall e, i: nat, p | i > 0 && ValidEntry(rules, e, i, p) ::
      env.admissible(TextAt(e, "task_id"), EventOf(reading, Action(e), Arguments(e)), TextAt(e, "status"))
  }

  lemma GenesisSeen(reading: Reading, rules: Rules, e: Members)
    requires ValidEntry(rules, e, 0, None)
    ensures TextAt(e, "task_id") == "02" && EventOf(reading, Action(e), Arguments(e))
      == Model.Ordinary("bootstrap", Text(Obj(Arguments(e))))
  {
    hide CanonicalLine, Text, IsTimestamp, IsIdentifier, HashShape;
    assert |"bootstrap"| == 9 && |"final_attempt_started"| == 21;
    assert |"final_attempt_abandoned"| == 23 && |"seal_reopened"| == 13;
  }

  lemma EntryAdmitted(reading: Reading, env: Model.Environment, rules: Rules, e: Members, i: nat, p: Option<string>)
    requires Admits(reading, env, rules) && i > 0 && ValidEntry(rules, e, i, p)
    ensures env.admissible(TextAt(e, "task_id"), EventOf(reading, Action(e), Arguments(e)), TextAt(e, "status"))
  {
    hide ValidEntry;
  }

  /** A valid entry carries its place and its predecessor's digest. */
  lemma StoredFields(rules: Rules, e: Members, i: nat, p: Option<string>)
    requires ValidEntry(rules, e, i, p)
    ensures "sequence" in e && EqualsInt(e["sequence"], i) && Number(e) == i
    ensures "previous_entry_hash" in e && e["previous_entry_hash"] == PreviousField(p)
  {
    hide CanonicalLine, IsTimestamp, IsIdentifier, HashShape;
  }

  lemma LinkSeen(reading: Reading, env: Model.Environment, rules: Rules, es: seq<Members>, i: nat)
    requires Admits(reading, env, rules) && i < |es| && ValidEntry(rules, es[i], i, DigestBefore(es, i))
    ensures Ops.LinkOk(env, Seen(reading, es), i)
  {
    hide ValidEntry, Text, Seen, EventOf, Number, Action, Arguments, TextAt, Admits;
    SeenAt(reading, es, i);
    StoredFields(rules, es[i], i, DigestBefore(es, i));
    if i == 0 {
      GenesisSeen(reading, rules, es[0]);
    } else {
      EntryAdmitted(reading, env, rules, es[i], i, DigestBefore(es, i));
      assert Seen(reading, es)[..i][i - 1] == Seen(reading, es)[i - 1];
    }
  }

  /** What verifies as bytes is a chain of the lifecycle's ledger. */
  lemma VerifiedIsChain(reading: Reading, env: Model.Environment, rules: Rules, data: seq<Byte>, es: seq<Members>)
    requires Admits(reading, env, rules) && Verified(rules, data) == Success(es)
    ensures Ops.ChainOk(env, Seen(reading, es))
  {
    hide Verified, ValidEntry, CanonicalLine, FileOf, Seen, Admits;
    VerifiedExactly(rules, data, es);
    forall i | 0 <= i < |es| ensures Ops.LinkOk(env, Seen(reading, es), i) {
      assert LinkValid(rules, es, i);
      LinkSeen(reading, env, rules, es, i);
    }
  }

  /** The lifecycle's sequence number of an entry is the stored one, and is the entry's place. */
  lemma SequencesAgree(reading: Reading, rules: Rules, data: seq<Byte>, es: seq<Members>, i: nat)
    requires Verified(rules, data) == Success(es) && i < |es|
    ensures "sequence" in es[i] && EqualsInt(es[i]["sequence"], Seen(reading, es)[i].sequence)
    ensures Seen(reading, es)[i].sequence == i
  {
    hide Verified, ValidEntry, CanonicalLine, FileOf, Seen, EventOf, Number, Action, Arguments, TextAt;
    VerifiedExactly(rules, data, es);
    assert LinkValid(rules, es, i);
    SeenAt(reading, es, i);
    StoredFields(rules, es[i], i, DigestBefore(es, i));
  }

  /**
   * The stored links are the lifecycle's: in a verified file an entry stores the digest of
   * another exactly when it links to it as the lifecycle sees the two, or else the lemma hands
   * back two byte strings with one digest.
   */
  lemma LinksAgree(reading: Reading, rules: Rules, data: seq<Byte>, es: seq<Members>, i: nat, k: nat)
    returns (x: seq<Byte>, y: seq<Byte>)
    requires Verified(rules, data) == Success(es) && 0 < i < |es| && k < |es|
    ensures "previous_entry_hash" in es[i]
    ensures
      || Collision(rules, x, y)
      || (es[i]["previous_entry_hash"] == Str(EntryDigest(es[k]))
          <==> Seen(reading, es)[i].previous == Some(Ops.EntryHash(Seen(reading, es)[k])))
  {
    hide Verified, ValidEntry, CanonicalLine, FileOf, Seen, EventOf, Number, Action, Arguments, TextAt, Collision,
      EntryDigest;
    x, y := [], [];
    VerifiedExactly(rules, data, es);
    assert LinkValid(rules, es, i);
    StoredFields(rules, es[i], i, DigestBefore(es, i));
    SeenAt(reading, es, i);
    assert Seen(reading, es)[..i][i - 1] == Seen(reading, es)[i - 1];
    SequencesAgree(reading, rules, data, es, i - 1);
    SequencesAgree(reading, rules, data, es, k);
    if k != i - 1 && EntryDigest(es[i - 1]) == EntryDigest(es[k]) {
      x, y := DigestsDistinct(rules, data, es, if k < i - 1 then k else i - 1, if k < i - 1 then i - 1 else k);
    }
  }

  // ---- The active attempt, from the JSON entries ----------------------------------------------

  datatype Actives = Actives(active: Option<string>, seen: set<string>)

  /** One turn of the loop that derives the active attempt, on the entry as it is stored. */
  function FoldJson(s: Actives, e: Members): Option<Actives> {
    var action, arguments := Action(e), Arguments(e);
    if action !in Ops.LIFECYCLE_ACTIONS then Some(s)
    else if TextAt(e, "status") != "passed" || !HasHex(arguments, "attempt_id", 64) then None
    else
      var attempt := arguments["attempt_id"].text;
      if action == "final_attempt_started" then
        if !IsStarted(action, arguments) || s.active.Some? || attempt in s.seen then None
        else Some(Actives(Some(attempt), s.seen + {attempt}))
      else if !IsEnded(action, arguments) || s.active != Some(attempt) then None
      else Some(s.(active := None))
  }

  function ActiveJson(es: seq<Members>): Option<Actives> {
    if es == [] then Some(Actives(None, {}))
    else
      match ActiveJson(es[..|es| - 1])
      case None => None
      case Some(s) => FoldJson(s, es[|es| - 1])
  }

  function SeenActives(reading: Reading, s: Actives): Ops.Lifecycle {
    Ops.Lifecycle(
      match s.active case None => None case Some(a) => Some(reading.digest(a)),
      set a | a in s.seen :: reading.digest(a))
  }

  lemma FoldTurn(reading: Reading, s: Actives, ledger: seq<Model.Entry>, e: Members)
    requires Injective(reading)
    ensures Ops.FoldEntry(SeenActives(reading, s), EntryOn(reading, ledger, e))
      == match FoldJson(s, e) case None => None case Some(t) => Some(SeenActives(reading, t))
  {
    hide Text;
    var action, arguments := Action(e), Arguments(e);
    EventKeepsAction(reading, action, arguments);
    if IsStarted(action, arguments) {
      var attempt := arguments["attempt_id"].text;
      assert reading.digest(attempt) in SeenActives(reading, s).seen <==> attempt in s.seen;
      if attempt !in s.seen {
        assert SeenActives(reading, Actives(Some(attempt), s.seen + {attempt})).seen
          == SeenActives(reading, s).seen + {reading.digest(attempt)};
      }
    }
  }

  /** The fold over stored entries is the fold over the events they stand for. */
  lemma {:induction false} FoldsAgree(reading: Reading, es: seq<Members>)
    requires Injective(reading)
    ensures Ops.Fold(Seen(reading, es))
      == match ActiveJson(es) case None => None case Some(s) => Some(SeenActives(reading, s))
  {
    hide FoldJson, EntryOn;
    if es == [] {
      assert SeenActives(reading, Actives(None, {})) == Ops.Lifecycle(None, {});
    } else {
      var n := |es| - 1;
      FoldsAgree(reading, es[..n]);
      assert Seen(reading, es)[..n] == Seen(reading, es[..n])
        && Seen(reading, es)[n] == EntryOn(reading, Seen(reading, es[..n]), es[n]);
      if ActiveJson(es[..n]).Some? { FoldTurn(reading, ActiveJson(es[..n]).value, Seen(reading, es[..n]), es[n]); }
    }
  }

  // ---- What the history of a file looks like ----------------------------------------------------

  predicate IsLifecycle(e: Members) { Action(e) in Ops.LIFECYCLE_ACTIONS }

  /** Where the fold succeeds, a lifecycle action has its exact arguments. */
  lemma {:induction false} LifecycleShaped(es: seq<Members>, i: nat)
    requires ActiveJson(es).Some? && i < |es|
    ensures IsLifecycle(es[i]) ==>
      IsStarted(Action(es[i]), Arguments(es[i])) || IsEnded(Action(es[i]), Arguments(es[i]))
  {
    if i < |es| - 1 {
      LifecycleShaped(es[..|es| - 1], i);
      assert es[..|es| - 1][i] == es[i];
    }
  }

  lemma SeenEvent(reading: Reading, es: seq<Members>, i: nat)
    requires ActiveJson(es).Some? && i < |es|
    ensures
      var event := Seen(reading, es)[i].event;
      && (IsLifecycle(es[i]) <==> !event.Ordinary?)
      && (IsLifecycle(es[i]) ==>
            && HasStr(Arguments(es[i]), "attempt_id")
            && event.attempt == reading.digest(Arguments(es[i])["attempt_id"].text)
            && (event.Started? <==> Action(es[i]) == "final_attempt_started"))
  {
    hide Text, Seen, ActiveJson;
    SeenAt(reading, es, i);
    LifecycleShaped(es, i);
  }

  function Attempt(e: Members): string { TextAt(Arguments(e), "attempt_id") }

  /**
   * In a file whose fold succeeds, consecutive lifecycle entries alternate: a start, then the end
   * of the same attempt.
   */
  lemma FileAlternates(reading: Reading, es: seq<Members>, i: nat, k: nat)
    requires Injective(reading)
    requires ActiveJson(es).Some? && i < k < |es| && IsLifecycle(es[i]) && IsLifecycle(es[k])
    requires forall m | i < m < k :: !IsLifecycle(es[m])
    ensures Action(es[i]) == "final_attempt_started" <==> Action(es[k]) != "final_attempt_started"
    ensures Action(es[i]) == "final_attempt_started" ==> Attempt(es[k]) == Attempt(es[i])
  {
    hide Ops.Fold, ActiveJson, Seen, IsLifecycle, Action, Arguments;
    FoldsAgree(reading, es);
    SeenEvent(reading, es, i);
    SeenEvent(reading, es, k);
    forall m | i < m < k ensures !Guarantees.IsLifecycle(Seen(reading, es)[m]) { SeenEvent(reading, es, m); }
    Guarantees.LifecycleAlternates(Seen(reading, es), i, k);
  }

  /** In a file whose fold succeeds no attempt id is started twice. */
  lemma FileStartsOnce(reading: Reading, es: seq<Members>, i: nat, k: nat)
    requires Injective(reading)
    requires ActiveJson(es).Some? && i < |es| && k < |es|
    requires Action(es[i]) == "final_attempt_started" && Action(es[k]) == "final_attempt_started"
    requires Attempt(es[i]) == Attempt(es[k])
    ensures i == k
  {
    hide Ops.Fold, ActiveJson, Seen, Arguments;
    FoldsAgree(reading, es);
    SeenEvent(reading, es, i);
    SeenEvent(reading, es, k);
    Guarantees.AttemptStartsOnce(Seen(reading, es), i, k);
  }
}
