/**
 * When a commit is accepted, in the words of its message and the fields of the ledger's entries.
 * Nothing here refers to the way a history is checked; the lemmas tie the check to it.
 */
module PlanRules {
  import opened Wrappers
  import opened Strings
  import opened CanonicalJson
  import opened LedgerChain
  import opened PlanHistory

  // ---- The one trailer of a message -----------------------------------------------------

  predicate Digits(texts: Texts, s: string) { |s| == 2 && texts.decimal(s[0]) && texts.decimal(s[1]) }

  predicate ItemLine(texts: Texts, line: string) {
    |line| == 13 && line[..11] == "Plan-Item: " && Digits(texts, line[11..])
  }

  predicate FixLine(texts: Texts, line: string) {
    |line| == 12 && line[..10] == "Plan-Fix: " && Digits(texts, line[10..])
  }

  predicate RepairLine(texts: Texts, line: string) {
    |line| == 15 && line[..13] == "Plan-Repair: " && Digits(texts, line[13..])
  }

  predicate PlanLine(texts: Texts, line: string) {
    ItemLine(texts, line) || FixLine(texts, line) || RepairLine(texts, line)
  }

  predicate ReceiptLine(line: string) {
    && |line| == 85 && line[..21] == "Invalidates-Receipt: "
    && forall c <- line[21..] :: '0' <= c <= '9' || 'a' <= c <= 'f'
  }

  /** Of the lines that count there is one, `line`, at `i`. */
  predicate OnlyAt(lines: seq<string>, counts: string -> bool, line: string, i: nat) {
    && i < |lines| && lines[i] == line && counts(line)
    && forall j | 0 <= j < |lines| && j != i :: !counts(lines[j])
  }

  ghost predicate Only(lines: seq<string>, counts: string -> bool, line: string) {
    exists i: nat :: OnlyAt(lines, counts, line, i)
  }

  lemma {:induction false} FilterNone(p: string -> bool, xs: seq<string>)
    ensures Filter(p, xs) == [] <==> forall i | 0 <= i < |xs| :: !p(xs[i])
  {
    if Filter(p, xs) != [] {
      assert Filter(p, xs)[0] in Filter(p, xs);
    }
    if i :| 0 <= i < |xs| && p(xs[i]) { assert xs[i] in Filter(p, xs); }
  }

  lemma OnlyGrows(p: string -> bool, xs: seq<string>, x: string)
    requires xs != []
    ensures
      var n := |xs| - 1;
      Only(xs, p, x) <==>
        if p(xs[n]) then xs[n] == x && forall j | 0 <= j < n :: !p(xs[..n][j]) else Only(xs[..n], p, x)
  {
    var n := |xs| - 1;
    if p(xs[n]) {
      if i: nat :| OnlyAt(xs, p, x, i) {
        assert i == n;
        assert forall j | 0 <= j < n :: !p(xs[j]);
      }
      if xs[n] == x && forall j | 0 <= j < n :: !p(xs[..n][j]) {
        forall j | 0 <= j < n ensures !p(xs[j]) { assert xs[..n][j] == xs[j]; }
        assert OnlyAt(xs, p, x, n);
      }
    } else {
      forall i: nat ensures OnlyAt(xs, p, x, i) <==> OnlyAt(xs[..n], p, x, i) {
        if OnlyAt(xs[..n], p, x, i) {
          forall j | 0 <= j < |xs| && j != i ensures !p(xs[j]) { if j < n { assert xs[..n][j] == xs[j]; } }
        }
      }
    }
  }

  lemma {:induction false} FilterOnly(p: string -> bool, xs: seq<string>, x: string)
    ensures Filter(p, xs) == [x] <==> Only(xs, p, x)
  {
    hide OnlyAt;
    if xs == [] {
      forall i: nat ensures !OnlyAt(xs, p, x, i) { NotOnlyAt(p, x, i); }
    } else {
      var n := |xs| - 1;
      FilterOnly(p, xs[..n], x);
      FilterNone(p, xs[..n]);
      OnlyGrows(p, xs, x);
      hide Only;
      assert p(xs[n]) ==> (Filter(p, xs) == [x] <==> Filter(p, xs[..n]) == [] && xs[n] == x);
    }
  }

  lemma NotOnlyAt(p: string -> bool, x: string, i: nat)
    ensures !OnlyAt([], p, x, i)
  {
  }

  lemma TrailerOnly(head: string, value: string -> bool, message: string, v: string)
    ensures TrailerValues(head, value, message) == [v] <==>
      Only(SplitOn(message, '\n'), (line: string) => IsTrailer(head, value, line), head + v)
    ensures TrailerValues(head, value, message) == [] <==>
      forall line <- SplitOn(message, '\n') :: !IsTrailer(head, value, line)
  {
    hide IsTrailer, SplitOn;
    var p := (line: string) => IsTrailer(head, value, line);
    var lines := Filter(p, SplitOn(message, '\n'));
    FilterOnly(p, SplitOn(message, '\n'), head + v);
    FilterNone(p, SplitOn(message, '\n'));
    var values := TrailerValues(head, value, message);
    assert |values| == |lines|;
    if |lines| == 1 {
      assert lines[0] in lines && IsTrailer(head, value, lines[0]);
      TrailerParts(head, value, lines[0]);
      assert values[0] == lines[0][|head|..];
      assert values == [v] <==> values[0] == v;
      assert lines == [head + v] <==> lines[0] == head + v;
      assert lines[0] == head + v ==> (head + v)[|head|..] == v;
    }
  }

  lemma TrailerParts(head: string, value: string -> bool, line: string)
    requires IsTrailer(head, value, line)
    ensures |line| >= |head| && line == head + line[|head|..]
  {
  }

  lemma TrailerLines(texts: Texts, line: string)
    ensures IsTrailer("Plan-Item: ", TwoDigits(texts), line) <==> ItemLine(texts, line)
    ensures IsTrailer("Plan-Fix: ", TwoDigits(texts), line) <==> FixLine(texts, line)
    ensures IsTrailer("Plan-Repair: ", TwoDigits(texts), line) <==> RepairLine(texts, line)
    ensures IsTrailer("Invalidates-Receipt: ", (v: string) => HashShape(v), line) <==> ReceiptLine(line)
    ensures ItemLine(texts, line) ==> !FixLine(texts, line) && !RepairLine(texts, line)
    ensures FixLine(texts, line) ==> !RepairLine(texts, line)
  {
    assert ItemLine(texts, line) ==> line[5] == line[..11][5] == 'I';
    assert FixLine(texts, line) ==> line[5] == line[..10][5] == 'F';
  }

  lemma OnlyOfThree(lines: seq<string>, p: string -> bool, q: string -> bool, r: string -> bool, all: string -> bool,
      x: string)
    requires forall line :: all(line) <==> p(line) || q(line) || r(line)
    requires forall line | p(line) :: !q(line) && !r(line)
    requires p(x)
    ensures Only(lines, all, x) <==> Only(lines, p, x) && (forall l <- lines :: !q(l)) && (forall l <- lines :: !r(l))
  {
    if i: nat :| OnlyAt(lines, all, x, i) {
      assert OnlyAt(lines, p, x, i);
      forall l | l in lines ensures !q(l) && !r(l) {
        var j :| 0 <= j < |lines| && lines[j] == l;
      }
    }
    if Only(lines, p, x) && (forall l <- lines :: !q(l)) && (forall l <- lines :: !r(l)) {
      var i: nat :| OnlyAt(lines, p, x, i);
      assert forall j | 0 <= j < |lines| :: lines[j] in lines;
      assert OnlyAt(lines, all, x, i);
    }
  }

  /** The only plan trailer of a message, as the check finds it and as the message shows it. */
  lemma TrailersSpelled(texts: Texts, c: Commit, v: string)
    ensures Primaries(texts, c) == [v] && Fixes(texts, c) == [] && OldRepairs(texts, c) == [] <==>
      ItemLine(texts, "Plan-Item: " + v)
      && Only(SplitOn(c.message, '\n'), (line: string) => PlanLine(texts, line), "Plan-Item: " + v)
    ensures Fixes(texts, c) == [v] && Primaries(texts, c) == [] && OldRepairs(texts, c) == [] <==>
      FixLine(texts, "Plan-Fix: " + v)
      && Only(SplitOn(c.message, '\n'), (line: string) => PlanLine(texts, line), "Plan-Fix: " + v)
    ensures Invalidated(c) == [v] <==>
      Only(SplitOn(c.message, '\n'), (line: string) => ReceiptLine(line), "Invalidates-Receipt: " + v)
  {
    var lines := SplitOn(c.message, '\n');
    var item := (line: string) => ItemLine(texts, line);
    var fix := (line: string) => FixLine(texts, line);
    var repair := (line: string) => RepairLine(texts, line);
    var plan := (line: string) => PlanLine(texts, line);
    TrailerOnly("Plan-Item: ", TwoDigits(texts), c.message, v);
    TrailerOnly("Plan-Fix: ", TwoDigits(texts), c.message, v);
    TrailerOnly("Plan-Repair: ", TwoDigits(texts), c.message, v);
    TrailerOnly("Invalidates-Receipt: ", (v: string) => HashShape(v), c.message, v);
    forall line
      ensures IsTrailer("Plan-Item: ", TwoDigits(texts), line) <==> item(line)
      ensures IsTrailer("Plan-Fix: ", TwoDigits(texts), line) <==> fix(line)
      ensures IsTrailer("Plan-Repair: ", TwoDigits(texts), line) <==> repair(line)
      ensures IsTrailer("Invalidates-Receipt: ", (v: string) => HashShape(v), line) <==> ReceiptLine(line)
      ensures item(line) ==> !fix(line) && !repair(line)
      ensures fix(line) ==> !repair(line)
    {
      TrailerLines(texts, line);
    }
    SameOnly(lines, (line: string) => IsTrailer("Plan-Item: ", TwoDigits(texts), line), item, "Plan-Item: " + v);
    SameOnly(lines, (line: string) => IsTrailer("Plan-Fix: ", TwoDigits(texts), line), fix, "Plan-Fix: " + v);
    SameOnly(lines, (line: string) => IsTrailer("Invalidates-Receipt: ", (v: string) => HashShape(v), line),
      (line: string) => ReceiptLine(line), "Invalidates-Receipt: " + v);
    hide ItemLine, FixLine, RepairLine, ReceiptLine, IsTrailer, SplitOn;
    if item("Plan-Item: " + v) { OnlyOfThree(lines, item, fix, repair, plan, "Plan-Item: " + v); }
    if fix("Plan-Fix: " + v) { OnlyOfThree(lines, fix, item, repair, plan, "Plan-Fix: " + v); }
    OnlyCounts(lines, item, "Plan-Item: " + v);
    OnlyCounts(lines, fix, "Plan-Fix: " + v);
  }

  lemma OnlyCounts(lines: seq<string>, p: string -> bool, x: string)
    ensures Only(lines, p, x) ==> p(x)
  {
  }

  lemma SameOnly(lines: seq<string>, p: string -> bool, q: string -> bool, x: string)
    requires forall line :: p(line) <==> q(line)
    ensures Only(lines, p, x) <==> Only(lines, q, x)
  {
    forall i: nat ensures OnlyAt(lines, p, x, i) <==> OnlyAt(lines, q, x, i) {}
  }

  // ---- The receipts of a commit ---------------------------------------------------------

  /** An entry has the text `value` under `key`, at the top or among its arguments. */
  predicate Field(e: Members, key: string, value: string) { key in e && e[key] == Str(value) }

  predicate Argument(e: Members, key: string, value: string) {
    "arguments" in e && e["arguments"].Obj? && Field(e["arguments"].members, key, value)
  }

  predicate IsAbout(e: Members, sha: string) { Argument(e, "commit_sha", sha) || Argument(e, "commit", sha) }

  /** A passed entry about a commit, of an action with the word `commit` or `committed` in its name. */
  ghost predicate Receipt(e: Members, sha: string) {
    && IsAbout(e, sha) && Field(e, "status", "passed")
    && exists action: string ::
         && Field(e, "action_class", action)
         && (HasWord(action, '_', "commit") || HasWord(action, '_', "committed")
             || (action == "probe_receipts" && sha == "a42a33c55a8de2bf8f4f239eb33695487f69cac0"))
  }

  predicate Around(texts: Texts, task: string, owner: string, before: string, after: string) {
    && task == before + owner + after && (before == "" || !texts.decimal(before[|before| - 1]))
    && (after == "" || !texts.decimal(after[0]))
  }

  /** The entry's task is the owner's: its number stands there with no digit on either side. */
  ghost predicate TaskOf(texts: Texts, e: Members, owner: string) {
    && "task_id" in e && e["task_id"].Str?
    && exists before: string, after: string :: Around(texts, e["task_id"].text, owner, before, after)
  }

  lemma OwnerSpelled(texts: Texts, task: string, owner: string)
    ensures IsOwnerTask(texts, task, owner) <==>
      exists before: string, after: string :: Around(texts, task, owner, before, after)
  {
    if IsOwnerTask(texts, task, owner) {
      var i :| 0 <= i <= |task| && OwnerAt(texts, task, owner, i);
      assert Around(texts, task, owner, task[..i], task[i + |owner|..]);
    }
    if before: string, after: string :| Around(texts, task, owner, before, after) {
      assert task[|before|..|before| + |owner|] == owner;
      assert OwnerAt(texts, task, owner, |before|);
    }
  }

  lemma ReceiptSpelled(texts: Texts, e: Members, sha: string, owner: Option<string>)
    ensures IsReceipt(texts, e, sha, owner) <==> Receipt(e, sha) && (owner.Some? ==> TaskOf(texts, e, owner.value))
  {
    if owner.Some? && HasStr(e, "task_id") { OwnerSpelled(texts, e["task_id"].text, owner.value); }
    if HasStr(e, "action_class") {
      PieceExactly(e["action_class"].text, '_', "commit");
      PieceExactly(e["action_class"].text, '_', "committed");
    }
    hide HasWord, SplitOn, IsOwnerTask, Around;
  }

  // ---- Acceptance -----------------------------------------------------------------------

  lemma {:induction false} LegacyExactly(legacy: seq<Legacy>, sha: string)
    ensures LegacyFor(legacy, sha) == None <==> forall x <- legacy :: x.commit != sha
    ensures LegacyFor(legacy, sha).Some? ==>
      exists k | 0 <= k < |legacy| ::
        && legacy[k].commit == sha && LegacyFor(legacy, sha) == Some(legacy[k])
        && forall j | k < j < |legacy| :: legacy[j].commit != sha
  {
    if legacy != [] {
      var n := |legacy| - 1;
      LegacyExactly(legacy[..n], sha);
      assert legacy == legacy[..n] + [legacy[n]];
    }
  }

  /** An ordinary commit counts as a plan item when that is its only trailer and the item's owner has a receipt. */
  lemma PrimarySpelled(texts: Texts, contract: Contract, c: Commit, entries: seq<Members>, item: string)
    ensures CheckCommit(texts, contract, c, entries) == Success(IsPrimary(item)) <==>
      && (forall x <- contract.legacy :: x.commit != c.sha)
      && ItemLine(texts, "Plan-Item: " + item)
      && Only(SplitOn(c.message, '\n'), (line: string) => PlanLine(texts, line), "Plan-Item: " + item)
      && exists e <- entries :: Receipt(e, c.sha) && TaskOf(texts, e, item)
  {
    hide CheckCommit, Primaries, Fixes, OldRepairs, Only, ItemLine, Receipt, TaskOf, IsReceipt;
    AcceptedExactly(texts, contract, c, entries, IsPrimary(item));
    LegacyExactly(contract.legacy, c.sha);
    TrailersSpelled(texts, c, item);
    forall e | e in entries
      ensures IsReceipt(texts, e, c.sha, Some(item)) <==> Receipt(e, c.sha) && TaskOf(texts, e, item)
    {
      ReceiptSpelled(texts, e, c.sha, Some(item));
    }
  }

  /** A receipt records the invalidated digest under one of three keys. */
  predicate Invalidates(e: Members, digest: string) {
    || Argument(e, "invalidated_receipt", digest) || Argument(e, "invalidated_manifest_sha256", digest)
    || Argument(e, "invalidates_receipt", digest)
  }

  /**
   * An ordinary commit counts as a fix when that is its only trailer, its owner is an item of the
   * plan, and a receipt records the one digest that the message invalidates.
   */
  lemma FixSpelled(texts: Texts, contract: Contract, c: Commit, entries: seq<Members>, owner: string)
    ensures CheckCommit(texts, contract, c, entries) == Success(IsRepair(Repair(c.sha, owner, false))) <==>
      && (forall x <- contract.legacy :: x.commit != c.sha)
      && FixLine(texts, "Plan-Fix: " + owner) && owner in contract.primarySequence
      && Only(SplitOn(c.message, '\n'), (line: string) => PlanLine(texts, line), "Plan-Fix: " + owner)
      && exists e, digest ::
           && Only(SplitOn(c.message, '\n'), (line: string) => ReceiptLine(line), "Invalidates-Receipt: " + digest)
           && e in entries && Receipt(e, c.sha) && Invalidates(e, digest)
  {
    hide CheckCommit, Primaries, Fixes, OldRepairs, Invalidated, Only, FixLine, Receipt, IsReceipt, Invalidates,
        ArgumentIs;
    AcceptedExactly(texts, contract, c, entries, IsRepair(Repair(c.sha, owner, false)));
    LegacyExactly(contract.legacy, c.sha);
    TrailersSpelled(texts, c, owner);
    forall digest
      ensures Invalidated(c) == [digest] <==>
        Only(SplitOn(c.message, '\n'), (line: string) => ReceiptLine(line), "Invalidates-Receipt: " + digest)
    {
      TrailersSpelled(texts, c, digest);
    }
    forall e ensures IsReceipt(texts, e, c.sha, None) <==> Receipt(e, c.sha) {
      ReceiptSpelled(texts, e, c.sha, None);
    }
    forall e, digest
      ensures (exists key <- RECEIPT_KEYS :: ArgumentIs(e, key, digest)) <==> Invalidates(e, digest)
    {
      InvalidatesSpelled(e, digest);
    }
    if |Invalidated(c)| == 1 {
      assert Invalidated(c) == [Invalidated(c)[0]];
    }
  }

  lemma InvalidatesSpelled(e: Members, digest: string)
    ensures (exists key <- RECEIPT_KEYS :: ArgumentIs(e, key, digest)) <==> Invalidates(e, digest)
  {
    var keys := RECEIPT_KEYS;
    assert keys[0] in RECEIPT_KEYS && keys[1] in RECEIPT_KEYS && keys[2] in RECEIPT_KEYS;
  }

  /** The stored digest of the entry at a binding's place is the binding's. */
  predicate Bound(b: Binding, entries: seq<Members>) {
    b.sequence < |entries| && Field(entries[b.sequence], "entry_hash", b.entryHash)
  }

  /**
   * A commit under an exception counts as that exception's repair when its parent, its tree, its
   * message and one line of it are the recorded ones, the bindings hold, and an entry is about it.
   */
  lemma LegacySpelled(texts: Texts, contract: Contract, c: Commit, entries: seq<Members>, owner: string)
    ensures CheckCommit(texts, contract, c, entries) == Success(IsRepair(Repair(c.sha, owner, true))) <==>
      exists k | 0 <= k < |contract.legacy| ::
        var x := contract.legacy[k];
        && x.commit == c.sha && (forall j | k < j < |contract.legacy| :: contract.legacy[j].commit != c.sha)
        && x.owner == owner && c.parents == [x.parent] && c.tree == x.tree
        && texts.messageHash(c.message) == x.messageHash && x.trailer in texts.lines(c.message)
        && (forall b <- x.bindings :: Bound(b, entries)) && exists e <- entries :: IsAbout(e, c.sha)
  {
    hide CheckCommit, Primaries, Fixes, OldRepairs, Invalidated, IsReceipt;
    AcceptedExactly(texts, contract, c, entries, IsRepair(Repair(c.sha, owner, true)));
    LegacyExactly(contract.legacy, c.sha);
    assert forall e :: Names(e, c.sha) <==> IsAbout(e, c.sha);
    assert forall b :: BindingHolds(b, entries) <==> Bound(b, entries);
    hide Names, IsAbout, BindingHolds, Bound, LegacyFor;
  }

  /** There is no other way to be accepted. */
  lemma ThreeKinds(texts: Texts, contract: Contract, c: Commit, entries: seq<Members>)
    requires CheckCommit(texts, contract, c, entries).Success?
    ensures
      var kind := CheckCommit(texts, contract, c, entries).value;
      kind.IsPrimary? || kind.repair.commit == c.sha
  {
    hide Primaries, Fixes, OldRepairs, Invalidated, Receipts, BindingHolds;
  }

  /** Why an ordinary commit with one plan trailer is refused. */
  lemma RefusedSpelled(texts: Texts, contract: Contract, c: Commit, entries: seq<Members>, v: string)
    requires (forall x <- contract.legacy :: x.commit != c.sha) && CheckCommit(texts, contract, c, entries).Failure?
    ensures
      var error := CheckCommit(texts, contract, c, entries).error;
      var only := (line: string) => Only(SplitOn(c.message, '\n'), (l: string) => PlanLine(texts, l), line);
      && (ItemLine(texts, "Plan-Item: " + v) && only("Plan-Item: " + v) ==> error == PrimaryReceipt)
      && (FixLine(texts, "Plan-Fix: " + v) && only("Plan-Fix: " + v) ==>
            error ==
            if v !in contract.primarySequence then FixOwner
            else if !(exists digest ::
                        Only(SplitOn(c.message, '\n'), (l: string) => ReceiptLine(l), "Invalidates-Receipt: " + digest))
            then FixInvalidates
            else FixReceipt)
  {
    hide Primaries, Fixes, OldRepairs, Invalidated, Only, FixLine, ItemLine, Receipts, ArgumentIs;
    LegacyExactly(contract.legacy, c.sha);
    TrailersSpelled(texts, c, v);
    forall digest
      ensures Invalidated(c) == [digest] <==>
        Only(SplitOn(c.message, '\n'), (line: string) => ReceiptLine(line), "Invalidates-Receipt: " + digest)
    {
      TrailersSpelled(texts, c, digest);
    }
    if |Invalidated(c)| == 1 { assert Invalidated(c) == [Invalidated(c)[0]]; }
  }
}
