/**
 * The ledger as bytes in a file: appending one line under write failures, raised hooks and
 * sudden death, and the repair of a torn last line that the next append begins with.
 */
module LedgerFile {
  import opened Wrappers
  import opened Utf8
  import opened CanonicalJson
  import opened LedgerLines
  import opened LedgerChain
  import OperationsLedger

  datatype FileError =
    | PrivateAction | UnsafeArguments | NoNewline | Unverified(reason: ChainError) | Gated | LedgerSealed
    | TipMoved | EntryRejected

  /** The caller's operation; `lifecycle` is the private capability of the lifecycle commands. */
  datatype Request = Request(
    task: string, action: string, arguments: Members, status: string, expected: Option<string>, lifecycle: bool)

  /** What an append reads besides the file: the rules, the lifecycle gate and the clock. */
  datatype Writer = Writer(rules: Rules, gate: (seq<Members>, Request) -> bool, stamp: string)

  // ---- Repairing a torn line ---------------------------------------------------

  /** The position behind the last line feed. */
  function PrefixEnd(data: seq<Byte>): (n: nat)
    ensures n <= |data|
    ensures n > 0 ==> data[n - 1] == LF
    ensures forall i | n <= i < |data| :: data[i] != LF
  {
    if data == [] then 0
    else if data[|data| - 1] == LF then |data|
    else PrefixEnd(data[..|data| - 1])
  }

  /** `_recover_torn_suffix`: the bytes that are left in the file. */
  function Recovered(rules: Rules, data: seq<Byte>): Result<seq<Byte>, FileError> {
    if EndsLine(data) then Success(data)
    else if PrefixEnd(data) == 0 then Failure(NoNewline)
    else
      match Verified(rules, data[..PrefixEnd(data)])
      case Failure(reason) => Failure(Unverified(reason))
      case Success(_) => Success(data[..PrefixEnd(data)])
  }

  /**
   * Exactly what the repair leaves: the whole file when it ends in a line feed; otherwise
   * everything up to its last line feed, if there is one and that much verifies.
   */
  lemma RecoveredExactly(rules: Rules, data: seq<Byte>, base: seq<Byte>)
    ensures Recovered(rules, data) == Success(base) <==>
      || (data == base && data != [] && data[|data| - 1] == 0x0A)
      || (&& base != [] && |base| < |data| && base == data[..|base|] && base[|base| - 1] == 0x0A
          && (forall i | |base| <= i < |data| :: data[i] != 0x0A) && Verified(rules, base).Success?)
  {
    hide Verified;
    if && base != [] && |base| < |data| && base == data[..|base|] && base[|base| - 1] == 0x0A
       && (forall i | |base| <= i < |data| :: data[i] != 0x0A)
    {
      assert data[|base| - 1] == 0x0A;
      assert PrefixEnd(data) == |base|;
    }
  }

  /** A line cut short behind a verified file. */
  predicate IsNext(rules: Rules, data: seq<Byte>, es: seq<Members>, e: Members) {
    && Verified(rules, data) == Success(es)
    && CanonicalLine(Obj(e)).Success? && ValidEntry(rules, e, |es|, DigestBefore(es, |es|))
  }

  lemma {:induction false} ConcatEndsLine(lines: seq<seq<Byte>>)
    requires lines != [] && forall line <- lines :: IsLine(line)
    ensures EndsLine(Concat(lines))
  {
    assert IsLine(lines[0]);
    if |lines| > 1 {
      ConcatEndsLine(lines[1..]);
    } else {
      assert Concat(lines[1..]) == [];
      assert Concat(lines) == lines[0];
    }
  }

  lemma VerifiedEndsLine(rules: Rules, data: seq<Byte>)
    requires Verified(rules, data).Success?
    ensures EndsLine(data)
  {
    hide Verified, LinkValid, IsLine, LineOf;
    var es := Verified(rules, data).value;
    VerifiedExactly(rules, data, es);
    ChainLines(rules, es);
    ConcatEndsLine(Lines(es));
  }

  lemma CutLacksNewline(line: seq<Byte>, k: nat)
    requires IsLine(line) && k < |line|
    ensures LF !in line[..k]
  {
    assert forall i | 0 <= i < k :: line[..k][i] == line[..|line| - 1][i];
  }

  /**
   * Wherever the writing of a line stopped, the next append finds the old ledger (the line is
   * incomplete) or the ledger with exactly that entry more (it is complete).
   */
  lemma TornLineRecovers(rules: Rules, data: seq<Byte>, es: seq<Members>, e: Members, k: nat)
    requires IsNext(rules, data, es, e) && k <= |LineOf(e)|
    ensures Recovered(rules, data + LineOf(e)[..k]) == Success(if k == |LineOf(e)| then data + LineOf(e) else data)
    ensures Verified(rules, data + LineOf(e)) == Success(es + [e])
  {
    hide Verified, CanonicalLine, ValidEntry;
    var line := LineOf(e);
    CanonicalIsLine(Obj(e), line);
    AppendVerifies(rules, data, es, e);
    VerifiedEndsLine(rules, data);
    var torn := data + line[..k];
    if k == |line| {
      assert torn == data + line && torn[|torn| - 1] == line[|line| - 1];
    } else {
      CutLacksNewline(line, k);
      assert forall i | |data| <= i < |torn| :: torn[i] in line[..k];
      assert torn[|data| - 1] == LF;
      assert PrefixEnd(torn) == |data|;
      assert torn[..|data|] == data;
      assert k == 0 ==> torn == data;
      assert k > 0 ==> torn[|torn| - 1] in line[..k];
    }
  }

  /** A reader that does not repair refuses every line that is cut short. */
  lemma TornLineIsRefused(rules: Rules, data: seq<Byte>, es: seq<Members>, e: Members, k: nat)
    requires IsNext(rules, data, es, e) && 0 < k < |LineOf(e)|
    ensures Verified(rules, data + LineOf(e)[..k]).Failure?
  {
    hide Verified, CanonicalLine, ValidEntry;
    var line := LineOf(e);
    CanonicalIsLine(Obj(e), line);
    CutLacksNewline(line, k);
    var torn := data + line[..k];
    assert torn[|torn| - 1] == line[..k][k - 1];
    assert !EndsLine(torn);
    if Verified(rules, torn).Success? { VerifiedEndsLine(rules, torn); }
  }

  // ---- What an append plans to write ---------------------------------------------

  datatype Plan = Plan(base: seq<Byte>, entries: seq<Members>, entry: Members)

  function Unsigned(writer: Writer, es: seq<Members>, request: Request): Members {
    map[
      "schema_version" := Num(1),
      "sequence" := Num(|es|),
      "previous_entry_hash" := PreviousField(DigestBefore(es, |es|)),
      "timestamp_utc" := Str(writer.stamp),
      "task_id" := Str(request.task),
      "action_class" := Str(request.action),
      "arguments" := Obj(request.arguments),
      "status" := Str(request.status)]
  }

  function NewEntry(writer: Writer, es: seq<Members>, request: Request): Members {
    WithHash(writer.rules, Unsigned(writer, es, request))
  }

  /** The operation that an entry records. */
  function RequestOf(e: Members): Option<Request> {
    if HasStr(e, "task_id") && HasStr(e, "action_class") && HasStr(e, "status") && "arguments" in e
      && e["arguments"].Obj? then
      Some(Request(e["task_id"].text, e["action_class"].text, e["arguments"].members, e["status"].text, None,
        e["action_class"].text in OperationsLedger.LIFECYCLE_ACTIONS))
    else None
  }

  /** A new entry records the caller's operation, and its place, time and predecessor. */
  lemma EntryRecordsRequest(writer: Writer, es: seq<Members>, request: Request)
    ensures
      var e := NewEntry(writer, es, request);
      && (request.lifecycle == (request.action in OperationsLedger.LIFECYCLE_ACTIONS) ==>
            RequestOf(e) == Some(request.(expected := None)))
      && e["schema_version"] == Num(1) && e["sequence"] == Num(|es|) && e["timestamp_utc"] == Str(writer.stamp)
      && e["task_id"] == Str(request.task) && e["action_class"] == Str(request.action)
      && e["status"] == Str(request.status) && e["arguments"] == Obj(request.arguments)
      && e["previous_entry_hash"] == PreviousField(DigestBefore(es, |es|))
      && e["entry_hash"] == Str(writer.rules.hash(HashedLine(e)))
  {
    hide CanonicalLine;
    var fields := Unsigned(writer, es, request);
    assert Unhashed(NewEntry(writer, es, request)) == fields == Unhashed(fields);
  }

  predicate IsPassedSeal(e: Members) {
    "action_class" in e && "status" in e && e["action_class"] == Str("seal") && e["status"] == Str("passed")
  }

  /** Why the append of `request` to the repaired file `base` is refused, or the entry it writes. */
  function PlanOn(writer: Writer, base: seq<Byte>, request: Request): Result<Plan, FileError> {
    match Verified(writer.rules, base)
    case Failure(reason) => Failure(Unverified(reason))
    case Success(es) =>
      if !writer.gate(es, request) then Failure(Gated)
      else if es == [] || IsPassedSeal(es[|es| - 1]) then Failure(LedgerSealed)
      else if request.expected.Some? && request.expected != DigestBefore(es, |es|) then Failure(TipMoved)
      else
        var e := NewEntry(writer, es, request);
        if CanonicalLine(Obj(e)).Failure? || !ValidEntry(writer.rules, e, |es|, DigestBefore(es, |es|))
        then Failure(EntryRejected)
        else Success(Plan(base, es, e))
  }

  /** What is refused before the file is opened: the wrong surface for the action, or unsafe arguments. */
  function Barred(writer: Writer, request: Request): Option<FileError> {
    if request.lifecycle != (request.action in OperationsLedger.LIFECYCLE_ACTIONS) then Some(PrivateAction)
    else if !writer.rules.safe(request.arguments) then Some(UnsafeArguments)
    else None
  }

  function PlanFor(writer: Writer, data: seq<Byte>, request: Request): Result<Plan, FileError> {
    match Barred(writer, request)
    case Some(error) => Failure(error)
    case None =>
      match Recovered(writer.rules, data)
      case Failure(error) => Failure(error)
      case Success(base) => PlanOn(writer, base, request)
  }

  /** The file after the repair that precedes a refusal. */
  function Repaired(writer: Writer, data: seq<Byte>, request: Request): seq<Byte> {
    if Barred(writer, request).Some? then data
    else match Recovered(writer.rules, data) case Failure(_) => data case Success(base) => base
  }

  // ---- Faults ----------------------------------------------------------------------

  /** What one call to the operating system's `write` does: it takes some bytes, raises, or never returns. */
  datatype Write = Took(count: nat) | Raises | Dies

  /**
   * One append's bad luck.  `writes` rules the successive calls to `write` (afterwards each
   * takes all it is given); the booleans say that the hook or the guard at that place raises
   * (`revalidation` is the private caller's own last look at its inputs),
   * and `rollbackDies` that a rollback fails, or the process dies, before it truncates.
   */
  datatype Faults = Faults(
    beforeWrite: bool, revalidation: bool, writes: seq<Write>, fileSync: bool, afterFileSync: bool,
    parentSync: bool, afterParentSync: bool, lastCheck: bool, rollbackDies: bool)

  /** How an append ended. */
  datatype Exit =
    | Refused(error: FileError)   // raised with nothing planned
    | Stopped                     // raised before the first byte
    | RolledBack                  // raised, and truncated to what was there before
    | Kept                        // raised with the line complete and left in place
    | Dead                        // the process died, or its rollback failed
    | Returned(entry: Members)

  /** What an append, ended in any way, may leave in a file that held `data`. */
  ghost predicate Leaves(writer: Writer, request: Request, data: seq<Byte>, exit: Exit, after: seq<Byte>) {
    match PlanFor(writer, data, request)
    case Failure(error) => exit == Refused(error) && after == Repaired(writer, data, request)
    case Success(plan) =>
      var line := LineOf(plan.entry);
      match exit
      case Refused(_) => false
      case Stopped | RolledBack => after == plan.base
      case Kept => after == plan.base + line
      case Returned(e) => e == plan.entry && after == plan.base + line
      case Dead => exists k: nat :: k <= |line| && after == plan.base + line[..k]
  }

  datatype WriteOutcome = Written | WriteFailed | WriteDied

  /**
   * How a series of calls that have to take `room` more bytes ends: a call that takes nothing
   * counts as a failure.
   */
  function Delivery(room: nat, writes: seq<Write>): WriteOutcome {
    if room == 0 || writes == [] then Written
    else
      match writes[0]
      case Raises => WriteFailed
      case Dies => WriteDied
      case Took(count) =>
        if count == 0 then WriteFailed
        else Delivery(if count < room then room - count else 0, writes[1..])
  }

  /**
   * How a planned append ends.  Nothing has been written when a hook raises before the write.
   * Once the line is complete, an error of the file's sync or a hook leaves it in place; an error
   * of the write, of the directory's sync or of a check takes it back.
   */
  function ExitOf(e: Members, faults: Faults): Exit {
    var undone := if faults.rollbackDies then Dead else RolledBack;
    if faults.beforeWrite || faults.revalidation then Stopped
    else
      match Delivery(|LineOf(e)|, faults.writes)
      case WriteDied => Dead
      case WriteFailed => undone
      case Written =>
        if faults.fileSync || faults.afterFileSync then Kept
        else if faults.parentSync then undone
        else if faults.afterParentSync then Kept
        else if faults.lastCheck then undone
        else Returned(e)
  }

  function Later(writes: seq<Write>, turn: nat): seq<Write> {
    if turn <= |writes| then writes[turn..] else []
  }

  class File {
    var bytes: seq<Byte>

    constructor (data: seq<Byte>)
      ensures bytes == data
    {
      bytes := data;
    }

    /** Loops over the part of the payload that the device has not taken yet. */
    method WriteAll(payload: seq<Byte>, writes: seq<Write>) returns (outcome: WriteOutcome, k: nat)
      modifies this
      ensures k <= |payload| && bytes == old(bytes) + payload[..k]
      ensures outcome.Written? ==> k == |payload|
      ensures outcome == Delivery(|payload|, writes)
    {
      k := 0;
      var turn := 0;
      while k < |payload|
        invariant k <= |payload| && bytes == old(bytes) + payload[..k]
        invariant Delivery(|payload|, writes) == Delivery(|payload| - k, Later(writes, turn))
        decreases |payload| - k
      {
        var room := |payload| - k;
        var call := if turn < |writes| then writes[turn] else Took(room);
        turn := turn + 1;
        match call {
          case Raises => return WriteFailed, k;
          case Dies => return WriteDied, k;
          case Took(count) =>
            var written := if count < room then count else room;
            if written == 0 { return WriteFailed, k; }
            assert payload[..k + written] == payload[..k] + payload[k..k + written];
            bytes := bytes + payload[k..k + written];
            k := k + written;
        }
      }
      assert payload[..|payload|] == payload;
      outcome := Written;
    }

    method Truncate(length: nat)
      requires length <= |bytes|
      modifies this
      ensures bytes == old(bytes)[..length]
    {
      bytes := bytes[..length];
    }

    method RecoverTornSuffix(rules: Rules) returns (r: Result<seq<Byte>, FileError>)
      modifies this
      ensures r == Recovered(rules, old(bytes))
      ensures bytes == match r case Success(base) => base case Failure(_) => old(bytes)
    {
      if EndsLine(bytes) { return Success(bytes); }
      var end := PrefixEnd(bytes);
      if end == 0 { return Failure(NoNewline); }
      var checked := VerifyBytes(rules, bytes[..end]);
      if checked.Failure? { return Failure(Unverified(checked.error)); }
      Truncate(end);
      r := Success(bytes);
    }

    /** Undoes a write that is known to have failed; `alive` is false when the process dies first. */
    method Rollback(length: nat, dies: bool) returns (exit: Exit)
      requires length <= |bytes|
      modifies this
      ensures exit == (if dies then Dead else RolledBack)
      ensures bytes == if dies then old(bytes) else old(bytes)[..length]
    {
      if dies { return Dead; }
      Truncate(length);
      exit := RolledBack;
    }

    /**
     * Appends one operation.  Whatever the faults, the file is left holding what was there
     * (repaired) and a prefix of the planned line: none of it, all of it, or, only when the
     * process died or could not truncate, some of it.
     */
    method Append(writer: Writer, request: Request, faults: Faults) returns (exit: Exit)
      modifies this
      ensures Leaves(writer, request, old(bytes), exit, bytes)
      ensures PlanFor(writer, old(bytes), request).Success? ==>
        exit == ExitOf(PlanFor(writer, old(bytes), request).value.entry, faults)
    {
      hide Verified, ValidEntry, CanonicalLine, EndsLine, WithHash;
      var barred := Barred(writer, request);
      if barred.Some? { return Refused(barred.value); }
      var base := RecoverTornSuffix(writer.rules);
      if base.Failure? { return Refused(base.error); }
      var verified := VerifyBytes(writer.rules, bytes);
      if verified.Failure? { return Refused(Unverified(verified.error)); }
      var es := verified.value;
      if !writer.gate(es, request) { return Refused(Gated); }
      if es == [] || IsPassedSeal(es[|es| - 1]) { return Refused(LedgerSealed); }
      if request.expected.Some? && request.expected != DigestBefore(es, |es|) { return Refused(TipMoved); }
      var e := NewEntry(writer, es, request);
      if CanonicalLine(Obj(e)).Failure? || !ValidEntry(writer.rules, e, |es|, DigestBefore(es, |es|)) {
        return Refused(EntryRejected);
      }
      assert PlanFor(writer, old(bytes), request) == Success(Plan(bytes, es, e));
      exit := Commit(e, faults);
    }

    /** The write of the planned line and the checks behind it. */
    method Commit(e: Members, faults: Faults) returns (exit: Exit)
      modifies this
      ensures
        match exit
        case Refused(_) => false
        case Stopped | RolledBack => bytes == old(bytes)
        case Kept => bytes == old(bytes) + LineOf(e)
        case Returned(d) => d == e && bytes == old(bytes) + LineOf(e)
        case Dead => exists k: nat :: k <= |LineOf(e)| && bytes == old(bytes) + LineOf(e)[..k]
      ensures exit == ExitOf(e, faults)
    {
      hide LineOf;
      if faults.beforeWrite || faults.revalidation { return Stopped; }
      ghost var before := bytes;
      var end := |bytes|;
      var line := LineOf(e);
      var outcome, k := WriteAll(line, faults.writes);
      assert (before + line[..k])[..end] == before;
      if outcome.WriteDied? { return Dead; }
      if outcome.WriteFailed? { exit := Rollback(end, faults.rollbackDies); return; }
      assert line[..k] == line;
      if faults.fileSync || faults.afterFileSync { return Kept; }
      if faults.parentSync { exit := Rollback(end, faults.rollbackDies); return; }
      if faults.afterParentSync { return Kept; }
      if faults.lastCheck { exit := Rollback(end, faults.rollbackDies); return; }
      exit := Returned(e);
    }
  }

  // ---- Whole runs --------------------------------------------------------------------

  /** The entries that the next append will find, if it finds any. */
  function History(rules: Rules, data: seq<Byte>): Option<seq<Members>> {
    match Recovered(rules, data)
    case Failure(_) => None
    case Success(base) =>
      match Verified(rules, base) case Failure(_) => None case Success(es) => Some(es)
  }

  lemma PlanIsNext(writer: Writer, data: seq<Byte>, request: Request)
    requires PlanFor(writer, data, request).Success?
    ensures
      var plan := PlanFor(writer, data, request).value;
      && IsNext(writer.rules, plan.base, plan.entries, plan.entry)
      && History(writer.rules, data) == Some(plan.entries)
  {
    hide Verified, ValidEntry, CanonicalLine, WithHash;
  }

  /** Repair is idempotent. */
  lemma RecoveredTwice(rules: Rules, data: seq<Byte>)
    requires Recovered(rules, data).Success?
    ensures Recovered(rules, Recovered(rules, data).value) == Recovered(rules, data)
  {
    hide Verified;
    assert EndsLine(Recovered(rules, data).value);
  }

  /**
   * Every exit of an append leaves a file whose recovered history is the old one or the old
   * one and exactly the planned entry; a normal return, and only a complete line, is the latter.
   */
  lemma AppendIsAtomic(writer: Writer, request: Request, data: seq<Byte>, exit: Exit, after: seq<Byte>)
    requires Leaves(writer, request, data, exit, after)
    ensures match PlanFor(writer, data, request)
      case Failure(_) => History(writer.rules, after) == History(writer.rules, data)
      case Success(plan) =>
        var grown := Some(plan.entries + [plan.entry]);
        && History(writer.rules, data) == Some(plan.entries)
        && (History(writer.rules, after) == Some(plan.entries) || History(writer.rules, after) == grown)
        && (exit.Returned? || exit.Kept? ==> History(writer.rules, after) == grown)
        && (exit.Stopped? || exit.RolledBack? ==> History(writer.rules, after) == Some(plan.entries))
        && (exit.Returned? ==> Verified(writer.rules, after) == Success(plan.entries + [plan.entry]))
  {
    hide Verified, ValidEntry, CanonicalLine, NewEntry, EndsLine, IsNext, PlanFor;
    var rules := writer.rules;
    match PlanFor(writer, data, request) {
      case Failure(_) => RepairKeepsHistory(writer, data, request);
      case Success(plan) =>
        var line := LineOf(plan.entry);
        PlanIsNext(writer, data, request);
        forall k: nat | k <= |line| ensures History(rules, plan.base + line[..k])
          == Some(if k == |line| then plan.entries + [plan.entry] else plan.entries)
        {
          CutHistory(rules, plan.base, plan.entries, plan.entry, k);
        }
        TornLineRecovers(rules, plan.base, plan.entries, plan.entry, |line|);
        assert line[..0] == [] && plan.base + [] == plan.base && line[..|line|] == line;
        LinesNonempty(rules, plan.base, plan.entries, plan.entry);
    }
  }

  lemma LinesNonempty(rules: Rules, data: seq<Byte>, es: seq<Members>, e: Members)
    requires IsNext(rules, data, es, e)
    ensures |LineOf(e)| > 0
  {
    hide Verified, ValidEntry, CanonicalLine;
    CanonicalIsLine(Obj(e), LineOf(e));
  }

  lemma RepairKeepsHistory(writer: Writer, data: seq<Byte>, request: Request)
    ensures History(writer.rules, Repaired(writer, data, request)) == History(writer.rules, data)
  {
    hide Verified;
    if Recovered(writer.rules, data).Success? { RecoveredTwice(writer.rules, data); }
  }

  lemma CutHistory(rules: Rules, data: seq<Byte>, es: seq<Members>, e: Members, k: nat)
    requires IsNext(rules, data, es, e) && k <= |LineOf(e)|
    ensures History(rules, data + LineOf(e)[..k]) == Some(if k == |LineOf(e)| then es + [e] else es)
  {
    hide Verified, ValidEntry, CanonicalLine, Recovered;
    TornLineRecovers(rules, data, es, e, k);
    assert k == |LineOf(e)| ==> LineOf(e)[..k] == LineOf(e);
  }

  /** One append of a run: who wrote what, how it ended, and the bytes it left. */
  datatype Turn = Turn(writer: Writer, request: Request, exit: Exit, after: seq<Byte>)

  ghost predicate IsRun(rules: Rules, start: seq<Byte>, turns: seq<Turn>) {
    forall i | 0 <= i < |turns| ::
      && turns[i].writer.rules == rules
      && Leaves(turns[i].writer, turns[i].request, BytesBefore(start, turns, i), turns[i].exit, turns[i].after)
  }

  function BytesBefore(start: seq<Byte>, turns: seq<Turn>, i: nat): seq<Byte>
    requires i <= |turns|
  {
    if i == 0 then start else turns[i - 1].after
  }

  /** The appends that came back, or raised only after their line was complete. */
  function Completed(turns: seq<Turn>): nat {
    if turns == [] then 0
    else
      var last := turns[|turns| - 1].exit;
      Completed(turns[..|turns| - 1]) + if last.Returned? || last.Kept? then 1 else 0
  }

  function Deaths(turns: seq<Turn>): nat {
    if turns == [] then 0
    else Deaths(turns[..|turns| - 1]) + if turns[|turns| - 1].exit.Dead? then 1 else 0
  }

  /** The `i`-th append of a run planned the entry `e`. */
  predicate PlannedAt(start: seq<Byte>, turns: seq<Turn>, i: nat, e: Members)
    requires i < |turns|
  {
    var plan := PlanFor(turns[i].writer, BytesBefore(start, turns, i), turns[i].request);
    plan.Success? && plan.value.entry == e
  }

  predicate Planned(start: seq<Byte>, turns: seq<Turn>, e: Members) {
    exists i | 0 <= i < |turns| :: PlannedAt(start, turns, i, e)
  }

  /** The history `now` holds every entry that was returned, and gained over `was` only what was planned. */
  predicate Accounted(start: seq<Byte>, turns: seq<Turn>, was: seq<Members>, now: seq<Members>) {
    && was <= now
    && (forall i | 0 <= i < |turns| && turns[i].exit.Returned? :: turns[i].exit.entry in now)
    && (forall m | |was| <= m < |now| :: Planned(start, turns, now[m]))
  }

  /**
   * Over any run of appends, each ended by a return, an error or a death, the recovered history
   * only grows at its end: by every completed append, and otherwise only by appends that died.
   * It holds every entry that was returned, and whatever it gained was planned in the run.
   */
  lemma {:induction false} RunsOnlyAppend(rules: Rules, start: seq<Byte>, turns: seq<Turn>)
    requires History(rules, start).Some? && IsRun(rules, start, turns)
    ensures
      var end := BytesBefore(start, turns, |turns|);
      && History(rules, end).Some?
      && var was, now := History(rules, start).value, History(rules, end).value;
      && Accounted(start, turns, was, now)
      && |was| + Completed(turns) <= |now| <= |was| + Completed(turns) + Deaths(turns)
  {
    hide History, Leaves, PlanFor, Planned, Accounted, Completed, Deaths, LineOf, IsRun;
    var was := History(rules, start).value;
    Counts(turns);
    if turns == [] {
      assert Accounted(start, turns, was, was) by { NothingYet(start, was); }
    } else {
      var n := |turns| - 1;
      var before := turns[..n];
      RunBefore(rules, start, turns);
      RunsOnlyAppend(rules, start, before);
      var data := BytesBefore(start, turns, n);
      assert BytesBefore(start, before, n) == data;
      var last := turns[n];
      LastTurn(rules, start, turns);
      LastAppend(last.writer, last.request, data, last.exit, last.after);
      AccountedStep(start, turns, was, History(rules, data).value, History(rules, last.after).value);
      AccountedGrows(start, before, was, History(rules, data).value);
    }
  }

  lemma Counts(turns: seq<Turn>)
    ensures turns == [] ==> Completed(turns) == Deaths(turns) == 0
    ensures turns != [] ==>
      var before, last := turns[..|turns| - 1], turns[|turns| - 1].exit;
      && Completed(turns) == Completed(before) + (if last.Returned? || last.Kept? then 1 else 0)
      && Deaths(turns) == Deaths(before) + (if last.Dead? then 1 else 0)
  {
  }

  lemma LastTurn(rules: Rules, start: seq<Byte>, turns: seq<Turn>)
    requires IsRun(rules, start, turns) && turns != []
    ensures
      var n := |turns| - 1;
      && turns[n].writer.rules == rules
      && Leaves(turns[n].writer, turns[n].request, BytesBefore(start, turns, n), turns[n].exit, turns[n].after)
  {
    hide Leaves;
  }

  lemma AccountedGrows(start: seq<Byte>, turns: seq<Turn>, was: seq<Members>, now: seq<Members>)
    requires Accounted(start, turns, was, now)
    ensures was <= now
  {
  }

  /** What one append, ended in any way, does to the history it found. */
  lemma LastAppend(writer: Writer, request: Request, data: seq<Byte>, exit: Exit, after: seq<Byte>)
    requires Leaves(writer, request, data, exit, after) && History(writer.rules, data).Some?
    ensures
      var plan := PlanFor(writer, data, request);
      var mid, now := History(writer.rules, data).value, History(writer.rules, after);
      && now.Some?
      && (now.value == mid || (plan.Success? && now.value == mid + [plan.value.entry]))
      && (exit.Returned? || exit.Kept? ==> plan.Success? && now.value == mid + [plan.value.entry])
      && (exit.Returned? ==> exit.entry == plan.value.entry)
      && (!exit.Returned? && !exit.Kept? && !exit.Dead? ==> now.value == mid)
  {
    hide History, PlanFor, Leaves;
    AppendIsAtomic(writer, request, data, exit, after);
    ExitFits(writer, request, data, exit, after);
  }

  lemma NothingYet(start: seq<Byte>, was: seq<Members>)
    ensures Accounted(start, [], was, was)
  {
  }

  lemma RunBefore(rules: Rules, start: seq<Byte>, turns: seq<Turn>)
    requires IsRun(rules, start, turns) && turns != []
    ensures IsRun(rules, start, turns[..|turns| - 1])
  {
    hide Leaves;
    var before := turns[..|turns| - 1];
    forall i | 0 <= i < |before|
      ensures before[i].writer.rules == rules
      ensures Leaves(before[i].writer, before[i].request, BytesBefore(start, before, i), before[i].exit,
        before[i].after)
    {
      assert BytesBefore(start, before, i) == BytesBefore(start, turns, i) && before[i] == turns[i];
    }
  }

  /** One more append: the history stays, or gains the planned entry, which a return has to be. */
  lemma AccountedStep(start: seq<Byte>, turns: seq<Turn>, was: seq<Members>, mid: seq<Members>, now: seq<Members>)
    requires turns != [] && Accounted(start, turns[..|turns| - 1], was, mid)
    requires
      var n := |turns| - 1;
      var plan := PlanFor(turns[n].writer, BytesBefore(start, turns, n), turns[n].request);
      && (now == mid || (plan.Success? && now == mid + [plan.value.entry]))
      && (turns[n].exit.Returned? ==>
        plan.Success? && now == mid + [plan.value.entry] && turns[n].exit.entry == plan.value.entry)
    ensures Accounted(start, turns, was, now)
  {
    hide PlanFor;
    var n := |turns| - 1;
    forall e | Planned(start, turns[..n], e) ensures Planned(start, turns, e) {
      var i :| 0 <= i < n && PlannedAt(start, turns[..n], i, e);
      assert BytesBefore(start, turns[..n], i) == BytesBefore(start, turns, i) && turns[..n][i] == turns[i];
      assert PlannedAt(start, turns, i, e);
    }
    forall m | |was| <= m < |now| ensures Planned(start, turns, now[m]) {
      if m == |mid| { assert PlannedAt(start, turns, n, now[m]); }
    }
    forall i | 0 <= i < |turns| && turns[i].exit.Returned? ensures turns[i].exit.entry in now {
      if i < n { assert turns[..n][i] == turns[i]; }
    }
  }

  /** A refused append planned nothing; a returned entry is the planned one. */
  lemma ExitFits(writer: Writer, request: Request, data: seq<Byte>, exit: Exit, after: seq<Byte>)
    requires Leaves(writer, request, data, exit, after)
    ensures exit.Refused? <==> PlanFor(writer, data, request).Failure?
    ensures exit.Returned? ==> exit.entry == PlanFor(writer, data, request).value.entry
  {
    hide PlanFor;
  }
}
