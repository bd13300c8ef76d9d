/** Checking a Git history against the plan contract and the receipts in the operations ledger. */
module PlanHistory {
  import opened Wrappers
  import opened Strings
  import opened Utf8
  import opened CanonicalJson
  import opened LedgerChain
  import opened LedgerFile

  datatype Binding = Binding(sequence: nat, entryHash: string)

  datatype Legacy = Legacy(
    commit: string, parent: string, tree: string, messageHash: string, trailer: string, owner: string,
    bindings: seq<Binding>)

  datatype Contract = Contract(primarySequence: seq<string>, legacy: seq<Legacy>)

  datatype Commit = Commit(sha: string, parents: seq<string>, tree: string, message: string)

  /** Python's decimal digits, line splitting and the digest of a message. */
  datatype Texts = Texts(decimal: char -> bool, lines: string -> seq<string>, messageHash: string -> string)

  datatype HistoryError =
    | LegacyIdentity | LegacyBinding | LegacyAbsent | TrailerCount | PrimaryReceipt | Malformed
    | FixOwner | FixInvalidates | FixReceipt | PrimaryOrder

  datatype Repair = Repair(commit: string, owner: string, legacy: bool)

  /** What one accepted commit counts as. */
  datatype Kind = IsPrimary(item: string) | IsRepair(repair: Repair)

  datatype Report = Report(primaries: seq<string>, repairs: seq<Repair>)

  // ---- Trailers --------------------------------------------------------------------

  function Filter<T(!new)>(p: T -> bool, xs: seq<T>): (r: seq<T>)
    ensures forall x :: x in r <==> x in xs && p(x)
  {
    if xs == [] then []
    else Filter(p, xs[..|xs| - 1]) + if p(xs[|xs| - 1]) then [xs[|xs| - 1]] else []
  }

  predicate IsTrailer(head: string, value: string -> bool, line: string) {
    |line| >= |head| && line[..|head|] == head && value(line[|head|..])
  }

  /** The values of all lines that consist of `head` and a value. */
  function TrailerValues(head: string, value: string -> bool, message: string): seq<string> {
    var lines := Filter((line: string) => IsTrailer(head, value, line), SplitOn(message, '\n'));
    seq(|lines|, i requires 0 <= i < |lines| =>
      assert lines[i] in lines;
      lines[i][|head|..])
  }

  /** A trailer's value is found exactly when a whole line of the message is that trailer. */
  lemma TrailerFound(head: string, value: string -> bool, message: string, v: string)
    ensures v in TrailerValues(head, value, message) <==> head + v in SplitOn(message, '\n') && value(v)
  {
    var lines := Filter((line: string) => IsTrailer(head, value, line), SplitOn(message, '\n'));
    var values := TrailerValues(head, value, message);
    if v in values {
      var i :| 0 <= i < |values| && values[i] == v;
      assert lines[i] in lines && lines[i] == head + v;
    }
    if head + v in SplitOn(message, '\n') && value(v) {
      assert (head + v)[..|head|] == head && (head + v)[|head|..] == v;
      assert head + v in lines;
      var i :| 0 <= i < |lines| && lines[i] == head + v;
      assert values[i] == v;
    }
  }

  function TwoDigits(texts: Texts): string -> bool {
    (v: string) => |v| == 2 && texts.decimal(v[0]) && texts.decimal(v[1])
  }

  function Primaries(texts: Texts, c: Commit): seq<string> { TrailerValues("Plan-Item: ", TwoDigits(texts), c.message) }

  function Fixes(texts: Texts, c: Commit): seq<string> { TrailerValues("Plan-Fix: ", TwoDigits(texts), c.message) }

  function OldRepairs(texts: Texts, c: Commit): seq<string> { TrailerValues("Plan-Repair: ", TwoDigits(texts),
      c.message) }

  function Invalidated(c: Commit): seq<string> {
    TrailerValues("Invalidates-Receipt: ", (v: string) => HashShape(v), c.message)
  }

  // ---- Receipts --------------------------------------------------------------------

  predicate ArgumentIs(e: Members, key: string, value: string) {
    "arguments" in e && e["arguments"].Obj? && key in e["arguments"].members
      && e["arguments"].members[key] == Str(value)
  }

  predicate Names(e: Members, sha: string) {
    ArgumentIs(e, "commit_sha", sha) || ArgumentIs(e, "commit", sha)
  }

  /** The owner's number stands at position `i`, and not as part of a longer number. */
  predicate OwnerAt(texts: Texts, task: string, owner: string, i: nat) {
    && i + |owner| <= |task| && task[i..i + |owner|] == owner
    && (i == 0 || !texts.decimal(task[i - 1]))
    && (i + |owner| == |task| || !texts.decimal(task[i + |owner|]))
  }

  predicate IsOwnerTask(texts: Texts, task: string, owner: string) {
    exists i | 0 <= i <= |task| :: OwnerAt(texts, task, owner, i)
  }

  const PROBED := "a42a33c55a8de2bf8f4f239eb33695487f69cac0"

  predicate IsCommitAction(action: string, sha: string) {
    || "commit" in SplitOn(action, '_') || "committed" in SplitOn(action, '_')
    || (sha == PROBED && action == "probe_receipts")
  }

  predicate IsReceipt(texts: Texts, e: Members, sha: string, owner: Option<string>) {
    && Names(e, sha) && "status" in e && e["status"] == Str("passed")
    && (owner.Some? ==> HasStr(e, "task_id") && IsOwnerTask(texts, e["task_id"].text, owner.value))
    && HasStr(e, "action_class") && IsCommitAction(e["action_class"].text, sha)
  }

  function Matching(entries: seq<Members>, sha: string): seq<Members> {
    Filter((e: Members) => Names(e, sha), entries)
  }

  function Receipts(texts: Texts, entries: seq<Members>, sha: string, owner: Option<string>): seq<Members> {
    Filter((e: Members) => IsReceipt(texts, e, sha, owner), entries)
  }

  const RECEIPT_KEYS: seq<string> := ["invalidated_receipt", "invalidated_manifest_sha256", "invalidates_receipt"]

  // ---- One commit --------------------------------------------------------------------

  /** The last exception for a commit, as building a dictionary leaves it. */
  function LegacyFor(legacy: seq<Legacy>, sha: string): Option<Legacy> {
    if legacy == [] then None
    else if legacy[|legacy| - 1].commit == sha then Some(legacy[|legacy| - 1])
    else LegacyFor(legacy[..|legacy| - 1], sha)
  }

  predicate BindingHolds(b: Binding, entries: seq<Members>) {
    b.sequence < |entries| && "entry_hash" in entries[b.sequence]
      && entries[b.sequence]["entry_hash"] == Str(b.entryHash)
  }

  function CheckLegacy(texts: Texts, c: Commit, x: Legacy, entries: seq<Members>): Result<Kind, HistoryError> {
    if c.parents != [x.parent] || c.tree != x.tree || texts.messageHash(c.message) != x.messageHash
       || x.trailer !in texts.lines(c.message) then Failure(LegacyIdentity)
    else if exists b <- x.bindings :: !BindingHolds(b, entries) then Failure(LegacyBinding)
    else if Matching(entries, c.sha) == [] then Failure(LegacyAbsent)
    else Success(IsRepair(Repair(c.sha, x.owner, true)))
  }

  function CheckFix(texts: Texts, contract: Contract, c: Commit, owner: string, entries: seq<Members>): Result<Kind,
      HistoryError> {
    if owner !in contract.primarySequence then Failure(FixOwner)
    else if |Invalidated(c)| != 1 then Failure(FixInvalidates)
    else if exists e <- Receipts(texts, entries, c.sha, None) ::
              exists key <- RECEIPT_KEYS :: ArgumentIs(e, key, Invalidated(c)[0]) then
      Success(IsRepair(Repair(c.sha, owner, false)))
    else Failure(FixReceipt)
  }

  function CheckCommit(texts: Texts, contract: Contract, c: Commit, entries: seq<Members>): Result<Kind, HistoryError> {
    match LegacyFor(contract.legacy, c.sha)
    case Some(x) => CheckLegacy(texts, c, x, entries)
    case None =>
      var primaries, fixes := Primaries(texts, c), Fixes(texts, c);
      if |primaries| + |fixes| + |OldRepairs(texts, c)| != 1 then Failure(TrailerCount)
      else if primaries != [] then
        if Receipts(texts, entries, c.sha, Some(primaries[0])) == [] then Failure(PrimaryReceipt)
        else Success(IsPrimary(primaries[0]))
      else if fixes == [] then Failure(Malformed)
      else CheckFix(texts, contract, c, fixes[0], entries)
  }

  /** A Git commit is the one that an exception pins down. */
  predicate IsPinned(texts: Texts, c: Commit, x: Legacy) {
    && c.parents == [x.parent] && c.tree == x.tree && texts.messageHash(c.message) == x.messageHash
    && x.trailer in texts.lines(c.message)
  }

  /**
   * When a commit is accepted, and as what: an exception by its pinned identity and ledger
   * positions; a primary by its single trailer and a passed receipt of its owner; a fix by its
   * single trailer, a known owner, and a receipt that records the one invalidated digest.
   */
  lemma AcceptedExactly(texts: Texts, contract: Contract, c: Commit, entries: seq<Members>, kind: Kind)
    ensures CheckCommit(texts, contract, c, entries) == Success(kind) <==>
      match (LegacyFor(contract.legacy, c.sha), kind)
      case (Some(x), IsPrimary(_)) => false
      case (Some(x), IsRepair(repair)) =>
        && repair == Repair(c.sha, x.owner, true) && IsPinned(texts, c, x)
        && (forall b <- x.bindings :: BindingHolds(b, entries)) && (exists e <- entries :: Names(e, c.sha))
      case (None, IsPrimary(item)) =>
        && Primaries(texts, c) == [item] && Fixes(texts, c) == [] && OldRepairs(texts, c) == []
        && exists e <- entries :: IsReceipt(texts, e, c.sha, Some(item))
      case (None, IsRepair(repair)) =>
        && repair == Repair(c.sha, repair.owner, false) && repair.owner in contract.primarySequence
        && Primaries(texts, c) == [] && Fixes(texts, c) == [repair.owner] && OldRepairs(texts, c) == []
        && |Invalidated(c)| == 1
        && exists e <- entries :: IsReceipt(texts, e, c.sha, None)
             && exists key <- RECEIPT_KEYS :: ArgumentIs(e, key, Invalidated(c)[0])
  {
    hide IsReceipt, Names, Primaries, Fixes, OldRepairs, Invalidated, ArgumentIs, BindingHolds;
    match LegacyFor(contract.legacy, c.sha)
    case Some(x) =>
      NonemptyFilter((e: Members) => Names(e, c.sha), entries);
    case None =>
      var primaries, fixes := Primaries(texts, c), Fixes(texts, c);
      assert |primaries| == 1 ==> primaries == [primaries[0]];
      assert |fixes| == 1 ==> fixes == [fixes[0]];
      if primaries != [] {
        NonemptyFilter((e: Members) => IsReceipt(texts, e, c.sha, Some(primaries[0])), entries);
      } else if |Invalidated(c)| == 1 {
        FixReceipted(texts, c, entries);
      }
  }

  lemma FixReceipted(texts: Texts, c: Commit, entries: seq<Members>)
    requires |Invalidated(c)| == 1
    ensures (exists e <- Receipts(texts, entries, c.sha, None) ::
               exists key <- RECEIPT_KEYS :: ArgumentIs(e, key, Invalidated(c)[0]))
      <==> exists e <- entries :: IsReceipt(texts, e, c.sha, None)
             && exists key <- RECEIPT_KEYS :: ArgumentIs(e, key, Invalidated(c)[0])
  {
    hide IsReceipt, ArgumentIs, Invalidated;
    var receipts := Receipts(texts, entries, c.sha, None);
    assert forall e :: e in receipts <==> e in entries && IsReceipt(texts, e, c.sha, None);
  }

  lemma NonemptyFilter<T(!new)>(p: T -> bool, xs: seq<T>)
    ensures Filter(p, xs) != [] <==> exists x <- xs :: p(x)
  {
    if Filter(p, xs) != [] { assert Filter(p, xs)[0] in Filter(p, xs); }
    if x :| x in xs && p(x) { assert x in Filter(p, xs); }
  }

  // ---- A history -----------------------------------------------------------------------

  function Add(report: Report, kind: Kind): Report {
    match kind
    case IsPrimary(item) => report.(primaries := report.primaries + [item])
    case IsRepair(repair) => report.(repairs := report.repairs + [repair])
  }

  function Collect(texts: Texts, contract: Contract, commits: seq<Commit>, entries: seq<Members>): Result<Report,
      HistoryError> {
    if commits == [] then Success(Report([], []))
    else
      match Collect(texts, contract, commits[..|commits| - 1], entries)
      case Failure(error) => Failure(error)
      case Success(report) =>
        match CheckCommit(texts, contract, commits[|commits| - 1], entries)
        case Failure(error) => Failure(error)
        case Success(kind) => Success(Add(report, kind))
  }

  function Validated(texts: Texts, contract: Contract, commits: seq<Commit>, entries: seq<Members>): Result<Report,
      HistoryError> {
    match Collect(texts, contract, commits, entries)
    case Failure(error) => Failure(error)
    case Success(report) => if report.primaries != contract.primarySequence then Failure(PrimaryOrder)
      else Success(report)
  }

  lemma {:induction false} CollectFails(texts: Texts, contract: Contract, commits: seq<Commit>, n: nat,
      entries: seq<Members>)
    requires n <= |commits| && Collect(texts, contract, commits[..n], entries).Failure?
    ensures Collect(texts, contract, commits, entries) == Collect(texts, contract, commits[..n], entries)
    decreases |commits| - n
  {
    if n == |commits| {
      assert commits[..n] == commits;
    } else {
      assert commits[..n + 1][..n] == commits[..n];
      CollectFails(texts, contract, commits, n + 1, entries);
    }
  }

  /** The loop of `validate_history`. */
  method ValidateHistory(texts: Texts, contract: Contract, commits: seq<Commit>, entries: seq<Members>)
    returns (r: Result<Report, HistoryError>)
    ensures r == Validated(texts, contract, commits, entries)
  {
    hide CheckCommit;
    var primaries: seq<string>, repairs: seq<Repair> := [], [];
    for i := 0 to |commits|
      invariant Collect(texts, contract, commits[..i], entries) == Success(Report(primaries, repairs))
    {
      assert commits[..i + 1][..i] == commits[..i];
      var kind := CheckCommit(texts, contract, commits[i], entries);
      if kind.Failure? {
        CollectFails(texts, contract, commits, i + 1, entries);
        return Failure(kind.error);
      }
      match kind.value {
        case IsPrimary(item) => primaries := primaries + [item];
        case IsRepair(repair) => repairs := repairs + [repair];
      }
    }
    assert commits[..|commits|] == commits;
    r := if primaries != contract.primarySequence then Failure(PrimaryOrder) else Success(Report(primaries, repairs));
  }

  // ---- Partition -------------------------------------------------------------------------

  function KindAt(texts: Texts, contract: Contract, commits: seq<Commit>, entries: seq<Members>, i: nat): Result<Kind,
      HistoryError>
    requires i < |commits|
  {
    CheckCommit(texts, contract, commits[i], entries)
  }

  function Items(kinds: seq<Kind>): seq<string> {
    if kinds == [] then []
    else Items(kinds[..|kinds| - 1]) + match kinds[|kinds| - 1] case IsPrimary(item) => [item] case IsRepair(_) => []
  }

  function RepairsIn(kinds: seq<Kind>): seq<Repair> {
    if kinds == [] then []
    else
      RepairsIn(kinds[..|kinds| - 1])
      + match kinds[|kinds| - 1] case IsPrimary(_) => [] case IsRepair(repair) => [repair]
  }

  /** The kinds of all commits, one by one. */
  ghost predicate AreKinds(texts: Texts, contract: Contract, commits: seq<Commit>, entries: seq<Members>,
      kinds: seq<Kind>) {
    |kinds| == |commits| && forall i | 0 <= i < |commits| ::
      KindAt(texts, contract, commits, entries, i) == Success(kinds[i])
  }

  lemma {:induction false} CollectExactly(texts: Texts, contract: Contract, commits: seq<Commit>, entries: seq<Members>)
    returns (kinds: seq<Kind>)
    ensures Collect(texts, contract, commits, entries).Success? <==> AreKinds(texts, contract, commits, entries, kinds)
    ensures Collect(texts, contract, commits, entries).Success? ==>
      && Collect(texts, contract, commits, entries).value == Report(Items(kinds), RepairsIn(kinds))
      && |Items(kinds)| + |RepairsIn(kinds)| == |commits|
  {
    hide CheckCommit;
    kinds := [];
    if commits != [] {
      var n := |commits| - 1;
      var before := commits[..n];
      var kindsBefore := CollectExactly(texts, contract, before, entries);
      assert forall i | 0 <= i < n ::
        KindAt(texts, contract, before, entries, i) == KindAt(texts, contract, commits, entries, i);
      var last := KindAt(texts, contract, commits, entries, n);
      if AreKinds(texts, contract, before, entries, kindsBefore) && last.Success? {
        kinds := kindsBefore + [last.value];
        assert kinds[..n] == kindsBefore;
      }
    }
  }

  /**
   * A history is accepted exactly when every commit by itself is accepted and the primaries,
   * in commit order, are the contract's sequence; the report parts the commits in two.
   */
  lemma ValidatedExactly(texts: Texts, contract: Contract, commits: seq<Commit>, entries: seq<Members>)
    returns (kinds: seq<Kind>)
    ensures
      var r := Validated(texts, contract, commits, entries);
      && (r.Success? <==>
        AreKinds(texts, contract, commits, entries, kinds) && Items(kinds) == contract.primarySequence)
      && (r.Success? ==>
            && r.value == Report(contract.primarySequence, RepairsIn(kinds))
            && |contract.primarySequence| + |RepairsIn(kinds)| == |commits|)
  {
    hide AreKinds, Items, RepairsIn;
    kinds := CollectExactly(texts, contract, commits, entries);
  }

  /** A history gets past its commits exactly when each of them is accepted by itself. */
  lemma {:induction false} EveryCommitExactly(texts: Texts, contract: Contract, commits: seq<Commit>,
      entries: seq<Members>)
    ensures Collect(texts, contract, commits, entries).Success? <==>
      forall c <- commits :: CheckCommit(texts, contract, c, entries).Success?
  {
    hide CheckCommit;
    if commits != [] {
      var n := |commits| - 1;
      EveryCommitExactly(texts, contract, commits[..n], entries);
      assert commits == commits[..n] + [commits[n]];
    }
  }

  /** The report of accepted commits, which stands exactly when their plan items are the plan's in order. */
  lemma {:induction false} ReportExactly(texts: Texts, contract: Contract, commits: seq<Commit>, entries: seq<Members>,
      kinds: seq<Kind>)
    requires |kinds| == |commits|
    requires forall i | 0 <= i < |commits| :: CheckCommit(texts, contract, commits[i], entries) == Success(kinds[i])
    ensures Collect(texts, contract, commits, entries) == Success(Report(Items(kinds), RepairsIn(kinds)))
    ensures Validated(texts, contract, commits, entries) ==
      if Items(kinds) == contract.primarySequence then Success(Report(contract.primarySequence, RepairsIn(kinds)))
      else Failure(PrimaryOrder)
  {
    hide CheckCommit;
    if commits != [] {
      var n := |commits| - 1;
      ReportExactly(texts, contract, commits[..n], entries, kinds[..n]);
      var items, repairs := Items(kinds[..n]), RepairsIn(kinds[..n]);
      assert items + [] == items && repairs + [] == repairs;
    }
  }

  // ---- Monotonicity ------------------------------------------------------------------------

  lemma FilterGrows<T(!new)>(p: T -> bool, xs: seq<T>, ys: seq<T>)
    requires xs <= ys
    ensures forall x <- Filter(p, xs) :: x in Filter(p, ys)
    ensures Filter(p, xs) != [] ==> Filter(p, ys) != []
  {
    forall x | x in Filter(p, xs) ensures x in Filter(p, ys) { assert x in xs && x in ys; }
    if Filter(p, xs) != [] {
      var x := Filter(p, xs)[0];
      assert x in Filter(p, xs);
      assert x in Filter(p, ys);
    }
  }

  lemma LegacyStays(texts: Texts, c: Commit, x: Legacy, entries: seq<Members>, longer: seq<Members>)
    requires entries <= longer && CheckLegacy(texts, c, x, entries).Success?
    ensures CheckLegacy(texts, c, x, longer) == CheckLegacy(texts, c, x, entries)
  {
    hide Names;
    FilterGrows((e: Members) => Names(e, c.sha), entries, longer);
    assert forall b <- x.bindings :: BindingHolds(b, entries) ==> BindingHolds(b, longer);
  }

  lemma FixStays(texts: Texts, contract: Contract, c: Commit, owner: string, entries: seq<Members>,
      longer: seq<Members>)
    requires entries <= longer && CheckFix(texts, contract, c, owner, entries).Success?
    ensures CheckFix(texts, contract, c, owner, longer) == CheckFix(texts, contract, c, owner, entries)
  {
    hide IsReceipt, Invalidated, ArgumentIs;
    FilterGrows((e: Members) => IsReceipt(texts, e, c.sha, None), entries, longer);
    var e :| e in Receipts(texts, entries, c.sha, None)
      && exists key <- RECEIPT_KEYS :: ArgumentIs(e, key, Invalidated(c)[0]);
    assert e in Receipts(texts, longer, c.sha, None);
  }

  lemma PrimaryStays(texts: Texts, sha: string, owner: string, entries: seq<Members>, longer: seq<Members>)
    requires entries <= longer && Receipts(texts, entries, sha, Some(owner)) != []
    ensures Receipts(texts, longer, sha, Some(owner)) != []
  {
    hide IsReceipt;
    FilterGrows((e: Members) => IsReceipt(texts, e, sha, Some(owner)), entries, longer);
  }

  /** A commit accepted against a ledger is accepted as the same against every longer one. */
  lemma CommitStays(texts: Texts, contract: Contract, c: Commit, entries: seq<Members>, longer: seq<Members>)
    requires entries <= longer && CheckCommit(texts, contract, c, entries).Success?
    ensures CheckCommit(texts, contract, c, longer) == CheckCommit(texts, contract, c, entries)
  {
    hide CheckLegacy, CheckFix, Receipts, Primaries, Fixes, OldRepairs;
    var primaries, fixes := Primaries(texts, c), Fixes(texts, c);
    match LegacyFor(contract.legacy, c.sha)
    case Some(x) => LegacyStays(texts, c, x, entries, longer);
    case None =>
      if primaries != [] {
        PrimaryStays(texts, c.sha, primaries[0], entries, longer);
      } else {
        FixStays(texts, contract, c, fixes[0], entries, longer);
      }
  }

  /** A history accepted against a ledger stays accepted, with the same report, against every extension of it. */
  lemma {:induction false} CollectStays(texts: Texts, contract: Contract, commits: seq<Commit>, entries: seq<Members>,
      longer: seq<Members>)
    requires entries <= longer && Collect(texts, contract, commits, entries).Success?
    ensures Collect(texts, contract, commits, longer) == Collect(texts, contract, commits, entries)
  {
    hide CheckCommit;
    if commits != [] {
      CollectStays(texts, contract, commits[..|commits| - 1], entries, longer);
      CommitStays(texts, contract, commits[|commits| - 1], entries, longer);
    }
  }

  lemma HistoryStays(texts: Texts, contract: Contract, commits: seq<Commit>, entries: seq<Members>,
      longer: seq<Members>)
    requires entries <= longer && Validated(texts, contract, commits, entries).Success?
    ensures Validated(texts, contract, commits, longer) == Validated(texts, contract, commits, entries)
  {
    CollectStays(texts, contract, commits, entries, longer);
  }

  /**
   * Once accepted, always accepted: no run of ledger appends, with whatever failures and
   * deaths, takes an accepted history's report away.
   */
  lemma AcceptedForGood(texts: Texts, contract: Contract, commits: seq<Commit>, rules: Rules, start: seq<Byte>,
      turns: seq<Turn>)
    requires History(rules, start).Some? && IsRun(rules, start, turns)
    requires Validated(texts, contract, commits, History(rules, start).value).Success?
    ensures
      var end := History(rules, BytesBefore(start, turns, |turns|));
      && end.Some?
      && Validated(texts, contract, commits, end.value) == Validated(texts, contract, commits,
        History(rules, start).value)
  {
    hide Validated, History, IsRun;
    RunsOnlyAppend(rules, start, turns);
    HistoryStays(texts, contract, commits, History(rules, start).value,
      History(rules, BytesBefore(start, turns, |turns|)).value);
  }
}
