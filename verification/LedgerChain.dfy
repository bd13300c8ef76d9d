/** The hash chain over ledger lines: what verification accepts, and what the tip pins down. */
module LedgerChain {
  import opened Wrappers
  import opened Utf8
  import opened CanonicalJson
  import opened LedgerLines

  type Members = map<string, Json>

  /**
   * The parts of verification that this model leaves abstract: the digest function (as its
   * hexadecimal text), Unicode's decimal digits, and the content rules for the first
   * entry's facts and for every later entry's arguments.
   */
  datatype Rules = Rules(
    hash: seq<Byte> -> string,
    decimal: char -> bool,
    genesis: Members -> bool,
    safe: Members -> bool)

  datatype ChainError = EmptyLedger | BadLine(reason: LineError) | InvalidEntry

  const ENTRY_KEYS: set<string> :=
    {"schema_version", "sequence", "previous_entry_hash", "timestamp_utc", "task_id",
     "action_class", "arguments", "status", "entry_hash"}

  // ---- One entry -----------------------------------------------------------

  /** Python's `value == n`: the booleans are the integers 0 and 1. */
  predicate EqualsInt(v: Json, n: int) {
    v == Num(n) || (n == 1 && v == Bool(true)) || (n == 0 && v == Bool(false))
  }

  predicate HashShape(s: string) {
    |s| == 64 && forall c <- s :: '0' <= c <= '9' || 'a' <= c <= 'f'
  }

  predicate IsAlphanumeric(c: char) {
    'A' <= c <= 'Z' || 'a' <= c <= 'z' || '0' <= c <= '9'
  }

  predicate IsIdentifier(s: string) {
    && 1 <= |s| <= 64 && IsAlphanumeric(s[0])
    && forall c <- s :: IsAlphanumeric(c) || c in "_.:-"
  }

  /** `\d{4}-\d{2}-\d{2}T\d{2}:\d{2}:\d{2}Z`, where a digit is any Unicode decimal digit. */
  predicate IsTimestamp(decimal: char -> bool, s: string) {
    var shape := "0000-00-00T00:00:00Z";
    |s| == |shape| && forall i | 0 <= i < |s| :: if shape[i] == '0' then decimal(s[i]) else s[i] == shape[i]
  }

  function PreviousField(previous: Option<string>): Json {
    match previous case None => Null case Some(h) => Str(h)
  }

  function Unhashed(e: Members): Members { e - {"entry_hash"} }

  predicate HasStr(e: Members, key: string) { key in e && e[key].Str? }

  predicate ValidEntry(rules: Rules, e: Members, sequence: nat, previous: Option<string>) {
    && e.Keys == ENTRY_KEYS && EqualsInt(e["schema_version"], 1)
    && EqualsInt(e["sequence"], sequence) && e["previous_entry_hash"] == PreviousField(previous)
    && e["timestamp_utc"].Str? && IsTimestamp(rules.decimal, e["timestamp_utc"].text)
    && (forall key <- ["task_id", "action_class", "status"] :: HasStr(e, key) && IsIdentifier(e[key].text))
    && e["entry_hash"].Str? && HashShape(e["entry_hash"].text)
    && CanonicalLine(Obj(Unhashed(e))).Success?
    && rules.hash(CanonicalLine(Obj(Unhashed(e))).value) == e["entry_hash"].text
    && e["arguments"].Obj?
    && if sequence == 0
       then rules.genesis(e["arguments"].members) && e["action_class"] == Str("bootstrap") && e["task_id"] == Str("02")
       else rules.safe(e["arguments"].members)
  }

  function EntryDigest(e: Members): string {
    if HasStr(e, "entry_hash") then e["entry_hash"].text else ""
  }

  // ---- A whole file ----------------------------------------------------------

  /** The lines from number `sequence` on, `previous` being the digest of the entry before them. */
  function VerifyLines(rules: Rules, lines: seq<seq<Byte>>, sequence: nat, previous: Option<string>)
    : Result<seq<Members>, ChainError>
    decreases |lines|
  {
    if lines == [] then Success([])
    else
      match DecodeLine(lines[0])
      case Failure(error) => Failure(BadLine(error))
      case Success(v) =>
        if !v.Obj? || !ValidEntry(rules, v.members, sequence, previous) then Failure(InvalidEntry)
        else
          match VerifyLines(rules, lines[1..], sequence + 1, Some(EntryDigest(v.members)))
          case Failure(error) => Failure(error)
          case Success(rest) => Success([v.members] + rest)
  }

  function Verified(rules: Rules, data: seq<Byte>): Result<seq<Members>, ChainError> {
    if data == [] then Failure(EmptyLedger) else VerifyLines(rules, SplitLines(data), 0, None)
  }

  /** What remains to be verified after a prefix gave `entries`. */
  function Resume(entries: seq<Members>, rest: Result<seq<Members>, ChainError>): Result<seq<Members>, ChainError> {
    match rest
    case Failure(error) => Failure(error)
    case Success(es) => Success(entries + es)
  }

  /** The loop of `_verify_bytes`. */
  method VerifyBytes(rules: Rules, data: seq<Byte>) returns (r: Result<seq<Members>, ChainError>)
    ensures r == Verified(rules, data)
  {
    hide DecodeLine, ValidEntry, EntryDigest, SplitLines;
    if data == [] { return Failure(EmptyLedger); }
    var lines := SplitLines(data);
    var entries: seq<Members> := [];
    var previous: Option<string> := None;
    var sequence := 0;
    assert lines[0..] == lines;
    assert forall es: seq<Members> :: [] + es == es;
    while sequence < |lines|
      invariant 0 <= sequence <= |lines|
      invariant Verified(rules, data) == Resume(entries, VerifyLines(rules, lines[sequence..], sequence, previous))
    {
      assert lines[sequence..][0] == lines[sequence] && lines[sequence..][1..] == lines[sequence + 1..];
      var decoded := DecodeLine(lines[sequence]);
      if decoded.Failure? { return Failure(BadLine(decoded.error)); }
      var v := decoded.value;
      if !v.Obj? || !ValidEntry(rules, v.members, sequence, previous) { return Failure(InvalidEntry); }
      ghost var rest := VerifyLines(rules, lines[sequence + 1..], sequence + 1, Some(EntryDigest(v.members)));
      assert rest.Success? ==> entries + ([v.members] + rest.value) == entries + [v.members] + rest.value;
      entries := entries + [v.members];
      previous := Some(EntryDigest(v.members));
      sequence := sequence + 1;
    }
    assert entries + [] == entries;
    r := Success(entries);
  }

  // ---- Chains ----------------------------------------------------------------

  function DigestBefore(es: seq<Members>, i: nat): Option<string>
    requires i <= |es|
  {
    if i == 0 then None else Some(EntryDigest(es[i - 1]))
  }

  predicate LinkValid(rules: Rules, es: seq<Members>, i: nat)
    requires i < |es|
  {
    CanonicalLine(Obj(es[i])).Success? && ValidEntry(rules, es[i], i, DigestBefore(es, i))
  }

  /** A chain: entries whose numbers, links, digests and fields all fit. */
  predicate Chain(rules: Rules, es: seq<Members>) {
    es != [] && forall i | 0 <= i < |es| :: LinkValid(rules, es, i)
  }

  function LineOf(e: Members): seq<Byte> {
    match CanonicalLine(Obj(e)) case Success(line) => line case Failure(_) => []
  }

  function Lines(es: seq<Members>): seq<seq<Byte>> {
    seq(|es|, i requires 0 <= i < |es| => LineOf(es[i]))
  }

  function FileOf(es: seq<Members>): seq<Byte> { Concat(Lines(es)) }

  /** Verified lines are the canonical lines of a chain's tail. */
  lemma {:induction false} LinesVerify(rules: Rules, lines: seq<seq<Byte>>, es: seq<Members>, from: nat)
    requires from <= |es|
    ensures VerifyLines(rules, lines, from, DigestBefore(es, from)) == Success(es[from..])
      <==> lines == Lines(es)[from..] && forall i | from <= i < |es| :: LinkValid(rules, es, i)
    decreases |lines|
  {
    hide CanonicalLine, DecodeLine, ValidEntry;
    if lines == [] {
      assert |es[from..]| == |Lines(es)[from..]| == |es| - from;
    } else if from == |es| {
      assert es[from..] == [];
    } else {
      LinesVerify(rules, lines[1..], es, from + 1);
      LinesVerifyStep(rules, lines, es, from);
      assert (forall i | from <= i < |es| :: LinkValid(rules, es, i))
        <==> LinkValid(rules, es, from) && forall i | from + 1 <= i < |es| :: LinkValid(rules, es, i);
      assert LinkValid(rules, es, from) ==> CanonicalLine(Obj(es[from])) == Success(LineOf(es[from]));
      var later := Lines(es)[from + 1..];
      assert Lines(es)[from..] == [LineOf(es[from])] + later;
      assert lines == [lines[0]] + lines[1..];
      assert lines == Lines(es)[from..] ==> lines[0] == Lines(es)[from..][0] && lines[1..] == Lines(es)[from..][1..];
      assert Lines(es)[from..][1..] == later;
      assert lines == Lines(es)[from..] <==> lines[0] == LineOf(es[from]) && lines[1..] == later;
    }
  }

  lemma LinesVerifyStep(rules: Rules, lines: seq<seq<Byte>>, es: seq<Members>, from: nat)
    requires from < |es| && lines != []
    ensures VerifyLines(rules, lines, from, DigestBefore(es, from)) == Success(es[from..])
      <==> (CanonicalLine(Obj(es[from])) == Success(lines[0]) && LinkValid(rules, es, from)
        && VerifyLines(rules, lines[1..], from + 1, DigestBefore(es, from + 1)) == Success(es[from + 1..]))
  {
    hide CanonicalLine, DecodeLine, ValidEntry;
    var e := es[from];
    DecodeLineExactly(lines[0], Obj(e));
    assert es[from..] == [e] + es[from + 1..];
    assert es[from..][0] == e && es[from..][1..] == es[from + 1..];
    match DecodeLine(lines[0])
    case Failure(_) =>
    case Success(v) => DecodeLineExactly(lines[0], v);
  }

  /** Verification accepts exactly the files of chains, each as its own entries. */
  lemma VerifiedExactly(rules: Rules, data: seq<Byte>, es: seq<Members>)
    ensures Verified(rules, data) == Success(es) <==> Chain(rules, es) && data == FileOf(es)
  {
    hide LinkValid, VerifyLines, SplitLines;
    LinesVerify(rules, SplitLines(data), es, 0);
    assert es[0..] == es && Lines(es)[0..] == Lines(es);
    ConcatSplit(data);
    if Chain(rules, es) { ChainSplits(rules, es); }
    assert data == [] ==> SplitLines(data) == [] by { EmptySplits(); }
    assert SplitLines(data) == Lines(es) && data != [] ==> es != [] by { if es == [] { assert Lines(es) == []; } }
  }

  lemma EmptySplits()
    ensures SplitLines([]) == []
  {
  }

  lemma ChainLines(rules: Rules, es: seq<Members>)
    requires Chain(rules, es)
    ensures forall line <- Lines(es) :: IsLine(line)
  {
    hide CanonicalLine, ValidEntry, IsLine;
    forall i | 0 <= i < |es| ensures IsLine(Lines(es)[i]) {
      assert LinkValid(rules, es, i);
      CanonicalIsLine(Obj(es[i]), LineOf(es[i]));
    }
  }

  lemma ChainSplits(rules: Rules, es: seq<Members>)
    requires Chain(rules, es)
    ensures FileOf(es) != [] && SplitLines(FileOf(es)) == Lines(es)
  {
    hide SplitLines, CanonicalLine, ValidEntry;
    ChainLines(rules, es);
    SplitConcat(Lines(es));
    assert IsLine(Lines(es)[0]);
  }

  // ---- The tip determines the history ------------------------------------------

  /** Two different byte strings with one digest. */
  predicate Collision(rules: Rules, x: seq<Byte>, y: seq<Byte>) {
    x != y && rules.hash(x) == rules.hash(y)
  }

  function HashedLine(e: Members): seq<Byte> {
    match CanonicalLine(Obj(Unhashed(e))) case Success(line) => line case Failure(_) => []
  }

  /** Two valid entries with one digest are the same entry, or their hashed lines collide. */
  lemma EntriesAgree(rules: Rules, d: Members, e: Members, i: nat, j: nat, p: Option<string>, q: Option<string>)
    requires ValidEntry(rules, d, i, p) && ValidEntry(rules, e, j, q) && EntryDigest(d) == EntryDigest(e)
    ensures Collision(rules, HashedLine(d), HashedLine(e)) || (d == e && i == j && p == q)
  {
    hide CanonicalLine, IsTimestamp, IsIdentifier, HashShape;
    if HashedLine(d) == HashedLine(e) {
      CanonicalLineInjective(Obj(Unhashed(d)), Obj(Unhashed(e)));
      assert d == Unhashed(d)["entry_hash" := d["entry_hash"]];
      assert e == Unhashed(e)["entry_hash" := e["entry_hash"]];
    }
  }

  /** Chains that end in one digest are equal, or a collision can be read off them. */
  lemma {:induction false} TipDeterminesChain(rules: Rules, ds: seq<Members>, es: seq<Members>)
    returns (x: seq<Byte>, y: seq<Byte>)
    requires Chain(rules, ds) && Chain(rules, es)
    requires EntryDigest(ds[|ds| - 1]) == EntryDigest(es[|es| - 1])
    ensures ds == es || Collision(rules, x, y)
    decreases |ds|
  {
    hide CanonicalLine, ValidEntry, EntryDigest;
    var m, n := |ds| - 1, |es| - 1;
    x, y := HashedLine(ds[m]), HashedLine(es[n]);
    assert LinkValid(rules, ds, m) && LinkValid(rules, es, n);
    EntriesAgree(rules, ds[m], es[n], m, n, DigestBefore(ds, m), DigestBefore(es, n));
    if !Collision(rules, x, y) && m > 0 {
      ChainPrefix(rules, ds, m);
      ChainPrefix(rules, es, n);
      x, y := TipDeterminesChain(rules, ds[..m], es[..n]);
      assert ds == ds[..m] + [ds[m]] && es == es[..n] + [es[n]];
    }
  }

  lemma ChainPrefix(rules: Rules, es: seq<Members>, n: nat)
    requires Chain(rules, es) && 0 < n <= |es|
    ensures Chain(rules, es[..n])
  {
    hide CanonicalLine, ValidEntry, EntryDigest;
    forall i | 0 <= i < n ensures LinkValid(rules, es[..n], i) {
      assert LinkValid(rules, es, i);
      assert DigestBefore(es[..n], i) == DigestBefore(es, i);
    }
  }

  /**
   * Two files that verify and end in one digest are equal byte for byte: otherwise the
   * lemma hands back two different byte strings with one digest.
   */
  lemma TipDeterminesHistory(rules: Rules, a: seq<Byte>, b: seq<Byte>, ds: seq<Members>, es: seq<Members>)
    returns (x: seq<Byte>, y: seq<Byte>)
    requires Verified(rules, a) == Success(ds) && Verified(rules, b) == Success(es)
    requires ds != [] && es != [] && EntryDigest(ds[|ds| - 1]) == EntryDigest(es[|es| - 1])
    ensures a == b || Collision(rules, x, y)
  {
    hide Verified, Chain, FileOf, EntryDigest, Collision;
    VerifiedExactly(rules, a, ds);
    VerifiedExactly(rules, b, es);
    x, y := TipDeterminesChain(rules, ds, es);
  }

  /** With a collision-free digest no digest occurs twice in a verified file. */
  lemma DigestsDistinct(rules: Rules, data: seq<Byte>, es: seq<Members>, i: nat, j: nat)
    returns (x: seq<Byte>, y: seq<Byte>)
    requires Verified(rules, data) == Success(es) && i < j < |es| && EntryDigest(es[i]) == EntryDigest(es[j])
    ensures Collision(rules, x, y)
  {
    hide Verified, FileOf, EntryDigest, Collision, LinkValid;
    VerifiedExactly(rules, data, es);
    ChainPrefix(rules, es, i + 1);
    ChainPrefix(rules, es, j + 1);
    x, y := TipDeterminesChain(rules, es[..i + 1], es[..j + 1]);
  }

  // ---- Appending -----------------------------------------------------------------

  /** `_with_hash`. */
  function WithHash(rules: Rules, fields: Members): Members {
    fields["entry_hash" := Str(rules.hash(HashedLine(fields)))]
  }

  lemma ChainSnoc(rules: Rules, es: seq<Members>, e: Members)
    requires es == [] || Chain(rules, es)
    requires CanonicalLine(Obj(e)).Success? && ValidEntry(rules, e, |es|, DigestBefore(es, |es|))
    ensures Chain(rules, es + [e])
  {
    hide CanonicalLine, ValidEntry, EntryDigest;
    forall i | 0 <= i < |es| + 1 ensures LinkValid(rules, es + [e], i) {
      assert DigestBefore(es + [e], i) == DigestBefore(es, i);
      assert i < |es| ==> LinkValid(rules, es, i);
    }
  }

  lemma FileSnoc(es: seq<Members>, e: Members)
    ensures FileOf(es + [e]) == FileOf(es) + LineOf(e)
  {
    assert Lines(es + [e]) == Lines(es) + [LineOf(e)];
    ConcatSnoc(Lines(es), LineOf(e));
  }

  /** A valid next entry, written as its canonical line behind a verified file, verifies as one more entry. */
  lemma AppendVerifies(rules: Rules, data: seq<Byte>, es: seq<Members>, e: Members)
    requires Verified(rules, data) == Success(es)
    requires CanonicalLine(Obj(e)).Success? && ValidEntry(rules, e, |es|, DigestBefore(es, |es|))
    ensures Verified(rules, data + LineOf(e)) == Success(es + [e])
  {
    hide Verified, CanonicalLine, ValidEntry, FileOf;
    VerifiedExactly(rules, data, es);
    ChainSnoc(rules, es, e);
    FileSnoc(es, e);
    VerifiedExactly(rules, data + LineOf(e), es + [e]);
  }

  /**
   * The version check compares with `!=`, and Python's `True` equals 1: with the digest
   * recomputed, any valid entry stays valid when `true` stands for its version.
   */
  lemma SchemaVersionMayBeTrue(rules: Rules, e: Members, sequence: nat, previous: Option<string>)
    requires ValidEntry(rules, e, sequence, previous) && forall b :: HashShape(rules.hash(b))
    ensures ValidEntry(rules, WithHash(rules, Unhashed(e)["schema_version" := Bool(true)]), sequence, previous)
  {
    hide IsTimestamp, IsIdentifier, HashShape, CanonicalLine;
    var fields := Unhashed(e)["schema_version" := Bool(true)];
    assert Unhashed(WithHash(rules, fields)) == fields == Unhashed(fields);
    StillCanonical(Unhashed(e), "schema_version", Bool(true));
  }

  lemma StillCanonical(fields: Members, key: string, v: Json)
    requires CanonicalLine(Obj(fields)).Success? && !HasReal(v)
    ensures CanonicalLine(Obj(fields[key := v])).Success?
  {
    hide Text;
    var changed := fields[key := v];
    forall k | k in changed ensures !HasReal(changed[k]) {
      if k != key { assert k in fields; }
    }
  }

  // ---- The first entry -----------------------------------------------------------

  function UnsignedGenesis(facts: Members, stamp: string): Members {
    map[
      "schema_version" := Num(1),
      "sequence" := Num(0),
      "previous_entry_hash" := Null,
      "timestamp_utc" := Str(stamp),
      "task_id" := Str("02"),
      "action_class" := Str("bootstrap"),
      "arguments" := Obj(facts),
      "status" := Str("passed")]
  }

  function Genesis(rules: Rules, facts: Members, stamp: string): Members {
    WithHash(rules, UnsignedGenesis(facts, stamp))
  }

  lemma SmallIdentifiers()
    ensures IsIdentifier("02") && IsIdentifier("bootstrap") && IsIdentifier("passed")
  {
    assert "02"[0] == '0' && "bootstrap"[0] == 'b' && "passed"[0] == 'p';
    assert forall c <- "02" :: c == '0' || c == '2';
    assert forall c <- "bootstrap" :: 'a' <= c <= 'z';
    assert forall c <- "passed" :: 'a' <= c <= 'z';
  }

  /** A new ledger verifies exactly when its facts, its clock and its digest are in order. */
  lemma GenesisVerifies(rules: Rules, facts: Members, stamp: string)
    requires !HasReal(Obj(facts))
    ensures
      var e := Genesis(rules, facts, stamp);
      Verified(rules, LineOf(e)) == Success([e]) <==>
        && rules.genesis(facts) && IsTimestamp(rules.decimal, stamp)
        && HashShape(rules.hash(HashedLine(e)))
  {
    hide Verified, CanonicalLine, FileOf, IsTimestamp, HashShape, ValidEntry;
    var e := Genesis(rules, facts, stamp);
    VerifiedExactly(rules, LineOf(e), [e]);
    GenesisLine(rules, facts, stamp);
    GenesisValid(rules, facts, stamp);
    assert [] + [e] == [e];
    FileSnoc([], e);
    assert FileOf([]) == [] by { EmptyFile(); }
    assert FileOf([e]) == LineOf(e);
    assert Chain(rules, [e]) <==> LinkValid(rules, [e], 0);
  }

  lemma EmptyFile()
    ensures FileOf([]) == []
  {
  }

  lemma GenesisLine(rules: Rules, facts: Members, stamp: string)
    requires !HasReal(Obj(facts))
    ensures CanonicalLine(Obj(Genesis(rules, facts, stamp))).Success?
    ensures CanonicalLine(Obj(UnsignedGenesis(facts, stamp))).Success?
    ensures Unhashed(Genesis(rules, facts, stamp)) == UnsignedGenesis(facts, stamp)
      == Unhashed(UnsignedGenesis(facts, stamp))
  {
    hide Text;
    var fields := UnsignedGenesis(facts, stamp);
    assert forall k <- fields :: !HasReal(fields[k]);
    StillCanonical(fields, "entry_hash", Str(rules.hash(HashedLine(fields))));
    assert Unhashed(Genesis(rules, facts, stamp)) == fields;
  }

  lemma GenesisValid(rules: Rules, facts: Members, stamp: string)
    requires !HasReal(Obj(facts))
    ensures
      var e := Genesis(rules, facts, stamp);
      ValidEntry(rules, e, 0, None) <==>
        && rules.genesis(facts) && IsTimestamp(rules.decimal, stamp)
        && HashShape(rules.hash(HashedLine(e)))
  {
    hide CanonicalLine, IsTimestamp, HashShape, IsIdentifier, HasReal, Genesis, UnsignedGenesis, Unhashed;
    GenesisLine(rules, facts, stamp);
    GenesisFields(rules, facts, stamp);
    SmallIdentifiers();
  }

  lemma GenesisFields(rules: Rules, facts: Members, stamp: string)
    ensures
      var e := Genesis(rules, facts, stamp);
      && e.Keys == ENTRY_KEYS && e["schema_version"] == Num(1) && e["sequence"] == Num(0)
      && e["previous_entry_hash"] == Null && e["timestamp_utc"] == Str(stamp) && e["task_id"] == Str("02")
      && e["action_class"] == Str("bootstrap") && e["arguments"] == Obj(facts) && e["status"] == Str("passed")
      && e["entry_hash"] == Str(rules.hash(HashedLine(UnsignedGenesis(facts, stamp))))
  {
    hide HashedLine;
    assert Genesis(rules, facts, stamp).Keys == ENTRY_KEYS;
  }
}
