/**
 What each command asks of the disk, in the disk's own terms: when it prepares its journal, when
 a pending journal may be resumed, which commands are turned away, and what a finished transition
 has written. File names, statuses and actions are spelled out here, apart from the definitions
 that the steps use.
 */
module AttemptAdmission {
  import opened Wrappers
  import opened AttemptModel
  import opened OperationsLedger
  import opened AttemptTransitions
  import opened AttemptInvariant
  import opened AttemptSafety
  import opened AttemptSteps
  import opened AttemptRecovery
  import opened AttemptRuns
  import opened AttemptTheorems
  import opened AttemptEffects
  import opened AttemptGuarantees

  // ---- The files that decide

  /** A directory without the two files that the transitions write into it. */
  function Receipts(files: Files): Files {
    map p | p in files && p != "attempt-abandoned.json" && p != "operations-seal.json" :: files[p]
  }

  /** A directory without those and without what reviews add after a seal. */
  function PresealFiles(files: Files): Files {
    map p | p in files
      && p != "attempt-abandoned.json" && p != "operations-seal.json"
      && p != "f1-history.json" && p != "f1-review.md" && p != "f4-scope.json" && p != "f4-review.md" :: files[p]
  }

  function Digests(files: Files): map<string, Digest> {
    map p | p in files :: Digest(ContentDoc(files[p]))
  }

  function WholeInventory(files: Files): Inventory {
    Inventory(Digests(files), Digest(InventoryDoc(Digests(files))))
  }

  lemma FilesSpelled(files: Files)
    ensures EvidenceFiles(files) == Receipts(files) && PresealEvidence(files) == PresealFiles(files)
    ensures InventoryOf(files, {}) == WholeInventory(files)
  {
    assert InventoryOf(files, {}).files == Digests(files);
  }

  /** Every file but the marker of an abandon. */
  function Resumed(kind: Kind, files: Files): Files {
    if kind == Abandon then map p | p in files && p != "attempt-abandoned.json" :: files[p] else files
  }

  lemma ResumedSpelled(kind: Kind, files: Files)
    requires kind == Abandon || kind == Reopen
    ensures InventoryOf(files, TerminalExclusion(kind)) == WholeInventory(Resumed(kind, files))
  {
    assert InventoryOf(files, TerminalExclusion(kind)).files == Digests(Resumed(kind, files));
  }

  lemma InvReadable(env: Environment, d: Disk)
    requires Inv(env, d)
    ensures ChainOk(env, d.ledger) && d.ledger != [] && ReadPointer(d) == Success(d.pointer)
  {
    hide Fold;
  }

  // ---- Preparing a begin

  /** No attempt yet, or one that is closed and whose directory is as it was left. */
  predicate PriorAsLeft(d: Disk) {
    d.pointer.Some? ==>
      && d.pointer.value.attempt in d.attempts
      && var files := d.attempts[d.pointer.value.attempt];
      && d.pointer.value.frozen == Some(WholeInventory(files))
      && (d.pointer.value.status == Reopened
          || (&& d.pointer.value.status == Abandoned && "attempt-abandoned.json" in files
              && files["attempt-abandoned.json"].MarkerFile?
              && files["attempt-abandoned.json"].marker.inventory == WholeInventory(Resumed(Abandon, files))))
  }

  /**
   With nothing pending, a begin prepares its journal exactly on a root without an attempt, or
   behind a closed one whose directory is the recorded one, and when its own directory is free.
   */
  lemma BeginAdmittedSpelled(env: Environment, cmd: Command, d: Disk)
    requires Inv(env, d) && PendingKeys(d.journals) == {} && cmd.BeginCommand?
    ensures d.ledger != []
    ensures PrepareBegin(env, cmd, d).Success? <==>
              && PriorAsLeft(d)
              && Digest(InputsDoc(BeginInputs(cmd.head, cmd.plan, cmd.round,
                                              Digest(EntryDoc(d.ledger[|d.ledger| - 1]))))) !in d.attempts
    ensures PrepareBegin(env, cmd, d).Success? ==>
              var inputs := BeginInputs(cmd.head, cmd.plan, cmd.round, Digest(EntryDoc(d.ledger[|d.ledger| - 1])));
              PrepareBegin(env, cmd, d).value ==
                Journal(Begin, Digest(InputsDoc(inputs)), Prepared, inputs,
                        BeginPayload(if d.pointer == None then None
                                     else Some(Digest(PointerDoc(d.pointer.value)))))
  {
    hide Inv, PrepareBegin, WholeInventory, InventoryOf, Resumed;
    InvReadable(env, d);
    BeginAdmitted(env, cmd, d);
    if PrepareBegin(env, cmd, d).Success? { BeginJournal(env, cmd, d); }
    if d.pointer.Some? && d.pointer.value.attempt in d.attempts {
      FilesSpelled(d.attempts[d.pointer.value.attempt]);
      ResumedSpelled(Abandon, d.attempts[d.pointer.value.attempt]);
    }
  }

  lemma BeginJournal(env: Environment, cmd: Command, d: Disk)
    requires cmd.BeginCommand? && PrepareBegin(env, cmd, d).Success?
    ensures d.ledger != []
    ensures var inputs := BeginInputs(cmd.head, cmd.plan, cmd.round, Digest(EntryDoc(d.ledger[|d.ledger| - 1])));
            PrepareBegin(env, cmd, d).value ==
              Journal(Begin, Digest(InputsDoc(inputs)), Prepared, inputs,
                      BeginPayload(if d.pointer == None then None else Some(Digest(PointerDoc(d.pointer.value)))))
  {
  }

  // ---- Preparing an abandon or a reopen

  lemma TerminalUnprepared(env: Environment, kind: Kind, d: Disk, inputs: Inputs)
    requires Inv(env, d) && PendingKeys(d.journals) == {} && (kind == Abandon || kind == Reopen)
    requires d.ledger != [] && inputs.TerminalInputs? && inputs.tip == Tip(d.ledger)
    ensures JournalKey(kind, Digest(InputsDoc(inputs))) !in d.journals
  {
    var key := JournalKey(kind, Digest(InputsDoc(inputs)));
    if key in d.journals {
      var j := d.journals[key];
      assert key !in PendingKeys(d.journals);
      assert j.inputs == inputs && Happened(d.ledger, ExpectedEvent(j));
      NotYetHappened(env, d.ledger, j);
      assert false;
    }
  }

  /** The current attempt holds the receipt `failure`, under one of two names, and it is accepted. */
  predicate HasReceipt(env: Environment, d: Disk, failure: Path, first: string, second: string) {
    && d.pointer.Some?
    && var a := d.pointer.value.attempt;
    && failure.attempt == a && (failure.name == first || failure.name == second)
    && a in d.attempts && failure.name in d.attempts[a]
    && env.terminalReceipt(Receipts(d.attempts[a]), failure.name, a, d.pointer.value.head)
  }

  /**
   With nothing pending, an abandon prepares its journal exactly for an open attempt and a
   terminal failure receipt of that attempt that is there and accepted, with exports at hand.
   */
  lemma AbandonAdmitted(env: Environment, cmd: Command, d: Disk)
    requires Inv(env, d) && PendingKeys(d.journals) == {} && cmd.AbandonCommand?
    ensures PrepareTerminal(env, Abandon, cmd, d).Success? <==>
              && d.pointer.Some? && d.pointer.value.status == Open
              && var a := d.pointer.value.attempt;
              && HasReceipt(env, d, cmd.failure, "f2-failure.json", "f3-failure.json")
              && env.exports(PresealFiles(d.attempts[a]), d.captures, a).Some?
    ensures PrepareTerminal(env, Abandon, cmd, d).Failure? ==>
              PrepareTerminal(env, Abandon, cmd, d).error ==
              if !(d.pointer.Some? && d.pointer.value.status == Open) then WrongPointerStatus
              else if HasReceipt(env, d, cmd.failure, "f2-failure.json", "f3-failure.json") then ExportsChanged
              else FailureReceiptInvalid
  {
    hide Inv, ChainOk, ReadPointer, EvidenceFiles, PresealEvidence, Receipts, PresealFiles, InventoryOf, PendingKeys;
    InvReadable(env, d);
    if d.pointer.Some? && d.pointer.value.attempt in d.attempts { FilesSpelled(d.attempts[d.pointer.value.attempt]); }
    forall inputs: Inputs | inputs.TerminalInputs? && inputs.tip == Tip(d.ledger)
      ensures JournalKey(Abandon, Digest(InputsDoc(inputs))) !in d.journals
    {
      TerminalUnprepared(env, Abandon, d, inputs);
    }
  }

  /** The same for a reopen: a sealed attempt, its seal file, and a review receipt. */
  lemma ReopenAdmitted(env: Environment, cmd: Command, d: Disk)
    requires Inv(env, d) && PendingKeys(d.journals) == {} && cmd.ReopenCommand?
    ensures PrepareTerminal(env, Reopen, cmd, d).Success? <==>
              && d.pointer.Some? && d.pointer.value.status == Sealed
              && var a := d.pointer.value.attempt;
              && HasReceipt(env, d, cmd.failure, "f1-review.md", "f4-review.md")
              && "operations-seal.json" in d.attempts[a]
              && env.exports(PresealFiles(d.attempts[a]), d.captures, a).Some?
    ensures PrepareTerminal(env, Reopen, cmd, d).Failure? ==>
              PrepareTerminal(env, Reopen, cmd, d).error ==
              if !(d.pointer.Some? && d.pointer.value.status == Sealed) then WrongPointerStatus
              else if !HasReceipt(env, d, cmd.failure, "f1-review.md", "f4-review.md") then FailureReceiptInvalid
              else if "operations-seal.json" !in d.attempts[d.pointer.value.attempt] then SealFileMissing
              else ExportsChanged
  {
    hide Inv, ChainOk, ReadPointer, EvidenceFiles, PresealEvidence, Receipts, PresealFiles, InventoryOf, PendingKeys;
    InvReadable(env, d);
    if d.pointer.Some? && d.pointer.value.attempt in d.attempts { FilesSpelled(d.attempts[d.pointer.value.attempt]); }
    forall inputs: Inputs | inputs.TerminalInputs? && inputs.tip == Tip(d.ledger)
      ensures JournalKey(Reopen, Digest(InputsDoc(inputs))) !in d.journals
    {
      TerminalUnprepared(env, Reopen, d, inputs);
    }
  }

  /** What the journal of an abandon or reopen records of the disk it was prepared on. */
  lemma TerminalJournal(env: Environment, cmd: Command, d: Disk)
    requires cmd.AbandonCommand? || cmd.ReopenCommand?
    requires PrepareTerminal(env, CommandKind(cmd), cmd, d).Success?
    ensures d.ledger != [] && d.pointer.Some? && d.pointer.value.attempt in d.attempts
    ensures var p, last := d.pointer.value, d.ledger[|d.ledger| - 1];
            var files := d.attempts[p.attempt];
            && cmd.failure.name in files && (cmd.ReopenCommand? ==> "operations-seal.json" in files)
            && env.exports(PresealFiles(files), d.captures, p.attempt).Some?
            && var inputs := TerminalInputs(
                 p.attempt, cmd.plan, cmd.round, Digest(ContentDoc(files[cmd.failure.name])), cmd.failure,
                 Digest(EntryDoc(last)),
                 if cmd.AbandonCommand? then None else Some(Digest(ContentDoc(files["operations-seal.json"]))));
            PrepareTerminal(env, CommandKind(cmd), cmd, d).value ==
              Journal(if cmd.AbandonCommand? then Abandon else Reopen, Digest(InputsDoc(inputs)), Prepared, inputs,
                      TerminalPayload(Digest(PointerDoc(p)), WholeInventory(files),
                                      env.exports(PresealFiles(files), d.captures, p.attempt).value))
  {
    FilesSpelled(d.attempts[d.pointer.value.attempt]);
    hide EvidenceFiles, PresealEvidence, Receipts, PresealFiles, InventoryOf, WholeInventory;
  }

  // ---- Preparing a seal

  predicate LowerOrDash(s: string) {
    forall c | c in s :: 'a' <= c <= 'z' || '0' <= c <= '9' || c == '-'
  }

  predicate LowerHex(s: string) { forall c | c in s :: '0' <= c <= '9' || 'a' <= c <= 'f' }

  predicate ChildReceiptOf(name: string, node: string, hex: string) {
    && name == "f2-static." + node + "." + hex + ".json"
    && 1 <= |node| <= 64 && 'a' <= node[0] <= 'z' && LowerOrDash(node)
    && |hex| == 16 && LowerHex(hex)
  }

  /** `f2-static.<node>.<digest>.json`, put together from its parts. */
  ghost predicate ChildReceiptName(name: string) {
    exists node, hex :: ChildReceiptOf(name, node, hex)
  }

  lemma ChildReceiptExactly(name: string)
    ensures IsChildReceipt(name) <==> ChildReceiptName(name)
  {
    hide IsChildReceipt, ChildReceiptOf;
    if IsChildReceipt(name) { ChildReceiptSplit(name); }
    if node, hex :| ChildReceiptOf(name, node, hex) { ChildReceiptParts(name, node, hex); }
  }

  lemma ChildReceiptSplit(name: string)
    requires IsChildReceipt(name)
    ensures ChildReceiptOf(name, name[10..|name| - 22], name[|name| - 21..|name| - 5])
  {
    var node, hex := name[10..|name| - 22], name[|name| - 21..|name| - 5];
    assert forall i | 0 <= i < |node| :: node[i] == name[10 + i];
    assert forall i | 0 <= i < |hex| :: hex[i] == name[|name| - 21 + i];
    assert name == name[..10] + node + [name[|name| - 22]] + hex + name[|name| - 5..];
  }

  lemma ChildReceiptParts(name: string, node: string, hex: string)
    requires ChildReceiptOf(name, node, hex)
    ensures IsChildReceipt(name)
  {
    assert |"f2-static."| == 10 && |".json"| == 5;
    assert |name| == 32 + |node|;
    assert name[..10] == "f2-static." && name[|name| - 5..] == ".json";
    assert name[10] == node[0] && name[|name| - 22] == '.';
    forall i | 11 <= i < |name| - 22
      ensures 'a' <= name[i] <= 'z' || '0' <= name[i] <= '9' || name[i] == '-'
    {
      assert name[i] == node[i - 10] && node[i - 10] in node;
    }
    forall i | |name| - 21 <= i < |name| - 5 ensures IsLowerHex(name[i]) {
      assert name[i] == hex[i - |name| + 21] && hex[i - |name| + 21] in hex;
    }
  }

  predicate IsFixedReceipt(name: string) {
    || name == "f2-static.json" || name == "f2-code-review.md" || name == "f2-security-review.md"
    || name == "f3-scripted.json" || name == "f3-capture.json" || name == "f3-live.json" || name == "f3-manual-qa.md"
  }

  /** A directory that may be sealed: the seven receipts, none empty, and child receipts, all at the top. */
  ghost predicate Sealable(files: Files) {
    && (forall p | IsFixedReceipt(p) :: p in files && files[p] != Evidence(""))
    && (forall p | p in files :: '/' !in p && (IsFixedReceipt(p) || ChildReceiptName(p)))
  }

  lemma SealableExactly(files: Files)
    ensures PresealFilesOk(files) <==> Sealable(files)
  {
    hide ChildReceiptName, IsChildReceipt;
    forall p ensures IsChildReceipt(p) <==> ChildReceiptName(p) { ChildReceiptExactly(p); }
    assert forall p :: p in PRESEAL <==> IsFixedReceipt(p);
  }

  /**
   A seal may be prepared: the open attempt at its HEAD, its own output path, a sealable directory,
   exports and attestation at hand, and a journal name that is free.
   */
  ghost predicate SealReady(env: Environment, cmd: Command, d: Disk)
    requires cmd.SealCommand? && d.ledger != []
  {
    && d.pointer.Some? && d.pointer.value.status == Open && d.pointer.value.head == cmd.head
    && var a := d.pointer.value.attempt;
    && cmd.output == Path(a, "operations-seal.json")
    && a in d.attempts && Sealable(d.attempts[a])
    && var exports := env.exports(PresealFiles(d.attempts[a]), d.captures, a);
    && exports.Some?
    && var inventory := WholeInventory(d.attempts[a]);
    var receipts := env.attest(PresealFiles(d.attempts[a]), d.captures, a, cmd.head, env.contract.base, inventory,
                               exports.value);
    && receipts.Some?
    && var attestation := Attestation(a, cmd.head, env.contract.base, receipts.value, inventory, exports.value);
    JournalKey(Seal, Digest(InputsDoc(
      SealInputs(a, cmd.head, cmd.plan, cmd.round, Digest(EntryDoc(d.ledger[|d.ledger| - 1])),
                 Digest(AttestationDoc(attestation)), Digest(InventoryDoc(inventory.files)),
                 Digest(ExportsDoc(exports.value)))))) !in d.journals
  }

  /** On any disk, a seal is prepared exactly when it is ready, over a sound pointer and ledger. */
  lemma SealPrepares(env: Environment, cmd: Command, d: Disk)
    requires cmd.SealCommand?
    ensures PrepareSeal(env, cmd, d).Success? <==>
              && (d.pointer.Some? ==> PointerShape(d.pointer.value)) && ChainOk(env, d.ledger) && d.ledger != []
              && SealReady(env, cmd, d)
  {
    hide ChainOk, ReadPointer, PointerShape, EvidenceFiles, PresealEvidence, Receipts, PresealFiles, InventoryOf,
      WholeInventory, Sealable, PresealFilesOk;
    ReadableExactly(env, d);
    if d.pointer.Some? && d.pointer.value.attempt in d.attempts {
      FilesSpelled(d.attempts[d.pointer.value.attempt]);
      SealableExactly(d.attempts[d.pointer.value.attempt]);
    }
  }

  lemma ReadableExactly(env: Environment, d: Disk)
    ensures ReadPointer(d) == if d.pointer.Some? && !PointerShape(d.pointer.value) then Failure(PointerInvalid)
                              else Success(d.pointer)
    ensures ChainOk(env, d.ledger) ==> d.ledger != []
  {
  }

  /** With nothing pending, in a reachable state, a seal is prepared exactly when it is ready. */
  lemma SealAdmitted(env: Environment, cmd: Command, d: Disk)
    requires Inv(env, d) && PendingKeys(d.journals) == {} && cmd.SealCommand?
    ensures d.ledger != []
    ensures PrepareSeal(env, cmd, d).Success? <==> SealReady(env, cmd, d)
  {
    hide Inv, SealReady, PrepareSeal;
    InvReadable(env, d);
    SealPrepares(env, cmd, d);
  }

  /** What the journal of a seal records of the disk it was prepared on. */
  lemma SealJournal(env: Environment, cmd: Command, d: Disk)
    requires cmd.SealCommand? && PrepareSeal(env, cmd, d).Success?
    ensures d.ledger != [] && d.pointer.Some? && d.pointer.value.attempt in d.attempts
    ensures var p := d.pointer.value;
            var evidence, inventory := PresealFiles(d.attempts[p.attempt]), WholeInventory(d.attempts[p.attempt]);
            var exports := env.exports(evidence, d.captures, p.attempt);
            && exports.Some?
            && var receipts := env.attest(evidence, d.captures, p.attempt, cmd.head, env.contract.base, inventory,
                                          exports.value);
            && receipts.Some?
            && var a := Attestation(p.attempt, cmd.head, env.contract.base, receipts.value, inventory, exports.value);
            var inputs := SealInputs(p.attempt, cmd.head, cmd.plan, cmd.round,
                                     Digest(EntryDoc(d.ledger[|d.ledger| - 1])), Digest(AttestationDoc(a)),
                                     Digest(InventoryDoc(inventory.files)), Digest(ExportsDoc(exports.value)));
            PrepareSeal(env, cmd, d).value ==
              Journal(Seal, Digest(InputsDoc(inputs)), Prepared, inputs,
                      SealPayload(Digest(PointerDoc(p)), Digest(LedgerDoc(d.ledger)), inventory, exports.value, a))
  {
    hide PresealEvidence, PresealFiles, InventoryOf, WholeInventory, PresealFilesOk;
    FilesSpelled(d.attempts[d.pointer.value.attempt]);
  }

  /** Why a seal is not prepared. */
  lemma SealRefused(env: Environment, cmd: Command, d: Disk)
    requires Inv(env, d) && PendingKeys(d.journals) == {} && cmd.SealCommand? && PrepareSeal(env, cmd, d).Failure?
    ensures PrepareSeal(env, cmd, d).error ==
              if !(d.pointer.Some? && d.pointer.value.status == Open && d.pointer.value.head == cmd.head)
              then WrongPointerStatus
              else
                var a := d.pointer.value.attempt;
                if cmd.output != Path(a, "operations-seal.json") then OutputNotAttemptLocal
                else if a !in d.attempts then AttemptDirectoryMissing
                else if !Sealable(d.attempts[a]) then PresealFilesInvalid
                else
                  var exports := env.exports(PresealFiles(d.attempts[a]), d.captures, a);
                  if exports.None? then ExportsChanged
                  else if env.attest(PresealFiles(d.attempts[a]), d.captures, a, cmd.head, env.contract.base,
                                     WholeInventory(d.attempts[a]), exports.value).None? then AttestationChanged
                  else AlreadyCommitted
  {
    hide Inv, ChainOk, ReadPointer, EvidenceFiles, PresealEvidence, Receipts, PresealFiles, InventoryOf, WholeInventory,
      Sealable, PresealFilesOk, PendingKeys;
    InvReadable(env, d);
    if d.pointer.Some? && d.pointer.value.attempt in d.attempts {
      FilesSpelled(d.attempts[d.pointer.value.attempt]);
      SealableExactly(d.attempts[d.pointer.value.attempt]);
    }
  }

  // ---- What the writer trusts

  /** The writer trusts a journal whose phase, inputs and payload are of its kind, and a seal's whose digests fit. */
  lemma TrustedSpelled(j: Journal)
    ensures TrustedJournal(j) <==>
              match j.kind
              case Begin =>
                && j.inputs.BeginInputs? && j.payload.BeginPayload?
                && (j.phase == Prepared || j.phase == LedgerAppended || j.phase == DirectoryCreated
                    || j.phase == PointerOpen || j.phase == Committed)
              case Abandon =>
                && j.inputs.TerminalInputs? && j.payload.TerminalPayload?
                && (j.phase == Prepared || j.phase == LedgerAppended || j.phase == TerminalWritten
                    || j.phase == PointerAbandoned || j.phase == Committed)
              case Seal =>
                && j.inputs.SealInputs? && j.payload.SealPayload?
                && (j.phase == Prepared || j.phase == SealWritten || j.phase == PointerSealed || j.phase == Committed)
                && j.inputs.attestationSha == Digest(AttestationDoc(j.payload.attestation))
                && j.payload.attestation.inventory.sha
                   == Digest(InventoryDoc(j.payload.attestation.inventory.files))
              case Reopen =>
                && j.inputs.TerminalInputs? && j.payload.TerminalPayload?
                && (j.phase == Prepared || j.phase == LedgerAppended || j.phase == PointerReopened
                    || j.phase == Committed)
  {
  }

  /** The writer trusts a pointer exactly when it has the fields of its status, and its inventory's digest fits. */
  lemma TrustedPointerSpelled(p: Pointer)
    ensures TrustedPointer(p) <==>
              match p.status
              case Open => p == Pointer(p.attempt, p.head, Open, None, None, None, None)
              case Sealed => p.transition == None && p.frozen == None && p.sealId.Some? && p.sealSha.Some?
              case Abandoned =>
                && p.transition.Some? && p.frozen.Some? && p.sealId == None && p.sealSha == None
                && p.frozen.value.sha == Digest(InventoryDoc(p.frozen.value.files))
              case Reopened =>
                && p.transition.Some? && p.frozen.Some? && p.sealId.Some? && p.sealSha.Some?
                && p.frozen.value.sha == Digest(InventoryDoc(p.frozen.value.files))
  {
  }

  // ---- Resuming a pending journal

  /** The event of a pending journal is never found twice, unbound, or behind a moved tip. */
  lemma EventsNeverRefuse(env: Environment, d: Disk, j: Journal)
    requires Inv(env, d) && IsPending(d, j) && j.kind != Seal
    ensures d.ledger != [] && EventsRefusal(d.ledger, ExpectedEvent(j), j.inputs.tip).None?
  {
    hide SealHeld, PointerOwned, CommittedHappened, EventsJournaled, PresealListed, Fold;
    assert KeyOf(j) in PendingKeys(d.journals);
    var last := |d.ledger| - 1;
    if d.ledger[last].event == ExpectedEvent(j) {
      assert EventBound(d.ledger[last]);
      OneEvent(env, d.ledger, last);
    } else {
      assert EventPending(d.ledger, j, false);
      NoEvents(d.ledger, ExpectedEvent(j));
    }
  }

  /** A pending begin is resumed exactly at its own HEAD and, once it has made its directory, over an empty one. */
  lemma BeginResumes(env: Environment, cmd: Command, d: Disk, j: Journal)
    requires Inv(env, d) && IsPending(d, j) && j.kind == Begin && cmd.BeginCommand?
    ensures RefusalOf(env, cmd, d, j, KeyOf(j)).None? <==>
              && j.inputs.head == cmd.head
              && (j.phase == DirectoryCreated || j.phase == PointerOpen ==>
                    j.id in d.attempts && d.attempts[j.id] == map[])
  {
    hide Inv, ChainOk, EventsRefusal;
    EventsNeverRefuse(env, d, j);
    InvReadable(env, d);
    PendingTiedId(env, d, j);
  }

  lemma PendingTiedId(env: Environment, d: Disk, j: Journal)
    requires Inv(env, d) && IsPending(d, j)
    ensures j.id == Digest(InputsDoc(j.inputs)) && TrustedJournal(j) && PresealListed(j)
    ensures j.kind != Begin ==> d.pointer.Some? && d.pointer.value.attempt == j.inputs.attempt
  {
    hide ChainOk, Fold, CommittedHappened, EventsJournaled, SealHeld;
    assert KeyOf(j) in PendingKeys(d.journals);
  }

  /**
   A pending abandon or reopen is resumed exactly with its own receipt, unchanged and still
   accepted, the recorded exports, and the recorded files, the marker aside for an abandon.
   */
  lemma TerminalResumes(env: Environment, cmd: Command, d: Disk, j: Journal)
    requires Inv(env, d) && IsPending(d, j) && j.kind == CommandKind(cmd)
    requires cmd.AbandonCommand? || cmd.ReopenCommand?
    ensures d.pointer.Some? && d.pointer.value.attempt == j.inputs.attempt
    ensures RefusalOf(env, cmd, d, j, KeyOf(j)).None? <==>
              && var a, name := j.inputs.attempt, cmd.failure.name;
              && cmd.failure == j.inputs.failurePath && cmd.failure.attempt == a
              && (if cmd.AbandonCommand? then name == "f2-failure.json" || name == "f3-failure.json"
                  else name == "f1-review.md" || name == "f4-review.md")
              && a in d.attempts && name in d.attempts[a]
              && env.terminalReceipt(Receipts(d.attempts[a]), name, a, d.pointer.value.head)
              && Digest(ContentDoc(d.attempts[a][name])) == j.inputs.failureSha
              && env.exports(PresealFiles(d.attempts[a]), d.captures, a) == Some(j.payload.exports)
              && WholeInventory(Resumed(j.kind, d.attempts[a])) == j.payload.inventory
  {
    hide Inv, ChainOk, EventsRefusal, ReadPointer, EvidenceFiles, PresealEvidence, Receipts, PresealFiles, InventoryOf,
      WholeInventory, Resumed, TerminalExclusion, IsPending;
    EventsNeverRefuse(env, d, j);
    InvReadable(env, d);
    PendingTiedId(env, d, j);
    if j.inputs.attempt in d.attempts {
      FilesSpelled(d.attempts[j.inputs.attempt]);
      ResumedSpelled(j.kind, d.attempts[j.inputs.attempt]);
    }
  }

  function BesideSeal(files: Files): Files {
    map p | p in files && p != "operations-seal.json" :: files[p]
  }

  lemma BesideSealSpelled(files: Files)
    ensures InventoryOf(files, {SEAL}) == WholeInventory(BesideSeal(files))
  {
    assert InventoryOf(files, {SEAL}).files == Digests(BesideSeal(files));
  }

  /**
   A pending seal is resumed exactly at its own HEAD and output, over a flat directory, with the
   recorded exports, attestation and files, the seal file aside.
   */
  lemma SealResumes(env: Environment, cmd: Command, d: Disk, j: Journal)
    requires Inv(env, d) && IsPending(d, j) && j.kind == Seal && cmd.SealCommand?
    ensures d.pointer.Some? && d.pointer.value.attempt == j.inputs.attempt
    ensures RefusalOf(env, cmd, d, j, KeyOf(j)).None? <==>
              && var a, was := j.inputs.attempt, j.payload.attestation;
              && cmd.head == j.inputs.head && cmd.output == Path(a, "operations-seal.json")
              && a in d.attempts && (forall p | p in d.attempts[a] :: '/' !in p)
              && var files := PresealFiles(d.attempts[a]);
              && env.exports(files, d.captures, a) == Some(j.payload.exports)
              && was == Attestation(a, cmd.head, env.contract.base, was.receipts, j.payload.inventory,
                j.payload.exports)
              && env.attest(files, d.captures, a, cmd.head, env.contract.base, j.payload.inventory, j.payload.exports)
                 == Some(was.receipts)
              && j.inputs == SealInputs(a, cmd.head, j.inputs.plan, j.inputs.round, j.inputs.tip,
                                        Digest(AttestationDoc(was)), Digest(InventoryDoc(j.payload.inventory.files)),
                                        Digest(ExportsDoc(j.payload.exports)))
              && WholeInventory(BesideSeal(d.attempts[a])) == j.payload.inventory
  {
    hide Inv, ChainOk, ReadPointer, EvidenceFiles, PresealEvidence, PresealFiles, InventoryOf, WholeInventory,
      BesideSeal, IsPending;
    InvReadable(env, d);
    PendingTiedId(env, d, j);
    if j.inputs.attempt in d.attempts {
      FilesSpelled(d.attempts[j.inputs.attempt]);
      BesideSealSpelled(d.attempts[j.inputs.attempt]);
    }
  }

  // ---- Commands that are turned away

  /** A command for another plan or round than the contract's changes nothing. */
  lemma OtherPlanRefused(env: Environment, cmd: Command, d: Disk, budget: nat)
    requires env.contract.plan != cmd.plan || env.contract.round != cmd.round
    ensures Invoke(env, cmd, d, budget) == RunResult(d, Refused(PlanIdentityDisagrees))
  {
  }

  /** Nor does one of another kind, or for another plan or round, than the pending journal's. */
  lemma ForeignCommandRefused(env: Environment, cmd: Command, d: Disk, j: Journal, budget: nat)
    requires Inv(env, d) && IsPending(d, j)
    requires
      || (j.kind == Begin && !cmd.BeginCommand?) || (j.kind == Abandon && !cmd.AbandonCommand?)
      || (j.kind == Seal && !cmd.SealCommand?) || (j.kind == Reopen && !cmd.ReopenCommand?)
      || j.inputs.plan != cmd.plan || j.inputs.round != cmd.round
    ensures Invoke(env, cmd, d, budget).disk == d && Invoke(env, cmd, d, budget).outcome.Refused?
  {
    hide RefusalOf, Continue, LedgerSound, TrustedJournal, PresealListed, Tied, Quiet, CommittedHappened,
        EventsJournaled,
      PointerOwned, SealHeld;
    CandidateIs(d.journals, KeyOf(j));
  }

  // ---- What finished transitions have written

  /** The entry that a lifecycle transition puts behind `ledger`. */
  predicate IsNextEntry(env: Environment, ledger: seq<Entry>, e: Entry, event: Event)
    requires ledger != []
  {
    e == Entry(|ledger|, Some(Digest(EntryDoc(ledger[|ledger| - 1]))), env.clock(|ledger|), "final-attempt", event,
      "passed")
  }

  lemma BegunLeaves(env: Environment, d: Disk, j: Journal)
    requires d.ledger != [] && WellShaped(j) && j.kind == Begin
    ensures var e := BegunDisk(env, d, j);
            && |e.ledger| == |d.ledger| + 1 && d.ledger == e.ledger[..|d.ledger|]
            && IsNextEntry(env, d.ledger, e.ledger[|d.ledger|], Started(j.id, j.inputs.head))
            && e.pointer == Some(Pointer(j.id, j.inputs.head, Open, None, None, None, None))
            && e.attempts == d.attempts[j.id := map[]] && e.captures == d.captures
            && e.journals == d.journals[JournalKey(Begin, j.id) := Journal(Begin, j.id, Committed, j.inputs, j.payload)]
  {
  }

  lemma AbandonedLeaves(env: Environment, d: Disk, j: Journal)
    requires d.ledger != [] && WellShaped(j) && j.kind == Abandon && AttemptInHand(d, j)
    ensures var e, p := ClosedDisk(env, d, j), d.pointer.value;
            var marker := MarkerFile(Marker(p.attempt, j.id, j.inputs.failureSha, j.payload.inventory));
            var files := d.attempts[p.attempt]["attempt-abandoned.json" := marker];
            && |e.ledger| == |d.ledger| + 1 && d.ledger == e.ledger[..|d.ledger|]
            && IsNextEntry(env, d.ledger, e.ledger[|d.ledger|],
                           AttemptAbandoned(j.id, p.attempt, j.inputs.failurePath, j.inputs.failureSha))
            && e.attempts == d.attempts[p.attempt := files] && e.captures == d.captures
            && e.pointer == Some(Pointer(p.attempt, p.head, Abandoned, Some(j.id), Some(WholeInventory(files)),
                                         p.sealId, p.sealSha))
            && e.journals == d.journals[JournalKey(Abandon, j.id) := Journal(Abandon, j.id, Committed, j.inputs,
              j.payload)]
  {
    FilesSpelled(ClosedDisk(env, d, j).attempts[d.pointer.value.attempt]);
    hide InventoryOf, WholeInventory;
  }

  lemma ReopenedLeaves(env: Environment, d: Disk, j: Journal)
    requires d.ledger != [] && WellShaped(j) && j.kind == Reopen && AttemptInHand(d, j)
    ensures var e, p := ClosedDisk(env, d, j), d.pointer.value;
            && |e.ledger| == |d.ledger| + 1 && d.ledger == e.ledger[..|d.ledger|]
            && IsNextEntry(env, d.ledger, e.ledger[|d.ledger|],
                           SealReopened(j.id, p.attempt, j.inputs.failurePath, j.inputs.failureSha))
            && e.attempts == d.attempts && e.captures == d.captures
            && e.pointer == Some(Pointer(p.attempt, p.head, Reopened, Some(j.id),
              Some(WholeInventory(d.attempts[p.attempt])),
                                         p.sealId, p.sealSha))
            && e.journals == d.journals[JournalKey(Reopen, j.id) := Journal(Reopen, j.id, Committed, j.inputs,
              j.payload)]
  {
    FilesSpelled(d.attempts[d.pointer.value.attempt]);
    assert d.attempts[d.pointer.value.attempt := d.attempts[d.pointer.value.attempt]] == d.attempts;
    hide InventoryOf, WholeInventory;
  }

  lemma SealedLeaves(d: Disk, j: Journal)
    requires WellShaped(j) && j.kind == Seal && AttemptInHand(d, j)
    ensures var e, p := SealedDisk(d, j), d.pointer.value;
            var seal := SealFile(SealRecord(
              p.attempt, j.id, j.inputs.head, j.inputs.plan, j.inputs.round, j.inputs.tip, j.payload.ledgerSha,
              j.inputs.attestationSha, j.inputs.inventorySha, j.inputs.exportsSha));
            && e.ledger == d.ledger && e.captures == d.captures
            && e.attempts == d.attempts[p.attempt := d.attempts[p.attempt]["operations-seal.json" := seal]]
            && e.pointer == Some(Pointer(p.attempt, p.head, Sealed, p.transition, p.frozen,
                                         Some(j.id), Some(Digest(ContentDoc(seal)))))
            && e.journals == d.journals[JournalKey(Seal, j.id) := Journal(Seal, j.id, Committed, j.inputs, j.payload)]
  {
  }

  // ---- The ledger's tip

  predicate IsPassedSealEntry(e: Entry) { e.event.Ordinary? && e.event.action == "seal" && e.status == "passed" }

  lemma SealEntrySpelled(e: Entry)
    ensures IsPassedSealEntry(e) <==> ActionName(e.event) == "seal" && e.status == "passed"
  {
    assert |"seal"| == 4 && |"final_attempt_started"| == 21;
    assert |"final_attempt_abandoned"| == 23 && |"seal_reopened"| == 13;
  }

  /** When an ordinary append is accepted, in every reachable state, with its names spelled out. */
  lemma OrdinaryAppendSpelled(env: Environment, d: Disk, task: string, action: string, arguments: string,
                              status: string, expected: Option<Digest>)
    requires Inv(env, d)
    ensures d.ledger != []
    ensures Append(env, d, task, Ordinary(action, arguments), status, expected, false).Success? <==>
              && action != "final_attempt_started" && action != "final_attempt_abandoned" && action != "seal_reopened"
              && env.admissible(task, Ordinary(action, arguments), status)
              && (forall k | k in d.journals :: d.journals[k].phase == Committed)
              && !(d.pointer.Some? && d.pointer.value.status == Sealed)
              && !IsPassedSealEntry(d.ledger[|d.ledger| - 1])
              && (expected == None || expected == Some(Digest(EntryDoc(d.ledger[|d.ledger| - 1]))))
  {
    InvReadable(env, d);
    SealEntrySpelled(d.ledger[|d.ledger| - 1]);
    OrdinaryAppendAdmitted(env, d, task, action, arguments, status, expected);
    hide Inv, Append, IsPassedSealEntry;
  }

  /** In every reachable state the gate stops an ordinary append for two reasons only. */
  lemma GateSpelled(env: Environment, d: Disk, action: string, arguments: string, status: string)
    requires Inv(env, d) && action !in LIFECYCLE_ACTIONS
    ensures GateRefusal(d, Ordinary(action, arguments), status, false) ==
              if exists k | k in d.journals :: d.journals[k].phase != Committed
              then Some(AnotherTransitionNonterminal)
              else if d.pointer.Some? && d.pointer.value.status == Sealed then Some(ExternallySealed)
              else None
  {
    PendingJournalIs(d.journals);
    hide ChainOk, PendingJournal;
    assert PendingKeys(d.journals) == {} <==> !exists k | k in d.journals :: d.journals[k].phase != Committed;
  }

  /** Why an ordinary append is refused: the first of these that applies. */
  lemma OrdinaryAppendRefused(env: Environment, d: Disk, task: string, action: string, arguments: string,
                              status: string, expected: Option<Digest>)
    requires Inv(env, d) && Append(env, d, task, Ordinary(action, arguments), status, expected, false).Failure?
    ensures d.ledger != []
    ensures Append(env, d, task, Ordinary(action, arguments), status, expected, false).error ==
              if action == "final_attempt_started" || action == "final_attempt_abandoned" || action == "seal_reopened"
              then PrivateActionRequired
              else if !env.admissible(task, Ordinary(action, arguments), status) then NotAdmissible
              else if exists k | k in d.journals :: d.journals[k].phase != Committed
              then AnotherTransitionNonterminal
              else if d.pointer.Some? && d.pointer.value.status == Sealed then ExternallySealed
              else if IsPassedSealEntry(d.ledger[|d.ledger| - 1]) then LedgerSealed
              else PreviousHashMismatch
  {
    InvReadable(env, d);
    SealEntrySpelled(d.ledger[|d.ledger| - 1]);
    if action !in LIFECYCLE_ACTIONS { GateSpelled(env, d, action, arguments, status); }
    hide Inv, ChainOk, GateRefusal, IsPassedSealEntry;
  }

  /**
   When the ledger takes a lifecycle entry: it is admissible, and the tip is no passed `seal` entry.
   A tip `seal` entry with any other status blocks nothing.
   */
  lemma LedgerAcceptsSpelled(env: Environment, ledger: seq<Entry>, j: Journal)
    requires ledger != [] && WellShaped(j) && j.kind != Seal
    ensures LedgerAccepts(env, ledger, j) <==>
              env.admissible("final-attempt", ExpectedEvent(j), "passed") && !IsPassedSealEntry(ledger[|ledger| - 1])
    ensures ledger[|ledger| - 1].status != "passed" ==>
              (LedgerAccepts(env, ledger, j) <==> env.admissible("final-attempt", ExpectedEvent(j), "passed"))
  {
    SealEntrySpelled(ledger[|ledger| - 1]);
  }

  // ---- Authority

  /** Authority is granted in exactly these reachable states, with entries and statuses spelled out. */
  lemma AuthoritySpelled(env: Environment, d: Disk, attempt: Digest, head: string)
    requires Inv(env, d)
    ensures VerifyAuthority(env, d, attempt, head).Success? <==>
              && (forall k | k in d.journals :: d.journals[k].phase == Committed)
              && (forall i | 0 <= i < |d.ledger| :: !IsPassedSealEntry(d.ledger[i]))
              && d.pointer == Some(Pointer(attempt, head, Open, None, None, None, None))
  {
    hide LedgerSound, CommittedHappened, EventsJournaled, SealHeld, Tied;
    forall i | 0 <= i < |d.ledger|
      ensures IsPassedSealEntry(d.ledger[i]) <==>
              ActionName(d.ledger[i].event) == "seal" && d.ledger[i].status == "passed"
    {
      SealEntrySpelled(d.ledger[i]);
    }
    AuthorityExactly(env, d, attempt, head);
    hide VerifyAuthority, IsPassedSealEntry, TrustedJournal, PresealListed;
    if (forall k | k in d.journals :: d.journals[k].phase == Committed)
       && d.pointer == Some(Pointer(attempt, head, Open, None, None, None, None)) {
      assert BegunAt(d, attempt, head) by { OwnBegin(env, d); }
    }
  }

  /** The begin that an open pointer stands for. */
  lemma OwnBegin(env: Environment, d: Disk)
    requires Inv(env, d) && d.pointer.Some? && PendingKeys(d.journals) == {}
    ensures BegunAt(d, d.pointer.value.attempt, d.pointer.value.head)
  {
    hide LedgerSound, CommittedHappened, EventsJournaled, SealHeld, Tied;
    assert JournalKey(Begin, d.pointer.value.attempt) !in PendingKeys(d.journals);
  }
}
