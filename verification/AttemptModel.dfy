/**
 The persistent state of one evidence root: the operations ledger, the current-attempt
 pointer, the transition journals and the attempt directories.

 SHA-256 is a free constructor: `Digest(d)` is the digest of document `d`, so two digests are
 equal exactly when the documents are.
 */
module AttemptModel {
  import opened Wrappers

  datatype Digest = Digest(of: Document)

  datatype Document =
    | EntryDoc(entry: Entry)
    | LedgerDoc(entries: seq<Entry>)
    | PointerDoc(pointer: Pointer)
    | InputsDoc(inputs: Inputs)
    | ContentDoc(content: Content)
    | InventoryDoc(files: map<string, Digest>)
    | ExportsDoc(exports: string)
    | AttestationDoc(attestation: Attestation)

  // ---- The ledger

  datatype Path = Path(attempt: Digest, name: string)

  /** What an entry records: one of the three private lifecycle actions, or anything else. */
  datatype Event =
    | Started(attempt: Digest, head: string)
    | AttemptAbandoned(transition: Digest, attempt: Digest, failurePath: Path, failureSha: Digest)
    | SealReopened(transition: Digest, attempt: Digest, failurePath: Path, failureSha: Digest)
    | Ordinary(action: string, arguments: string)

  datatype Entry = Entry(
    sequence: nat,
    previous: Option<Digest>,
    timestamp: string,
    task: string,
    event: Event,
    status: string)

  // ---- Attempt directories

  /** A file of an attempt directory: gate evidence, or one of the two control files. */
  datatype Content =
    | Evidence(text: string)
    | MarkerFile(marker: Marker)
    | SealFile(seal: SealRecord)

  type Files = map<string, Content>

  datatype Inventory = Inventory(files: map<string, Digest>, sha: Digest)

  datatype Marker = Marker(attempt: Digest, abandon: Digest, failureSha: Digest, inventory: Inventory)

  datatype SealRecord = SealRecord(
    attempt: Digest,
    sealId: Digest,
    head: string,
    plan: string,
    round: string,
    tip: Digest,
    ledgerSha: Digest,
    attestationSha: Digest,
    inventorySha: Digest,
    exportsSha: Digest)

  datatype Attestation = Attestation(
    attempt: Digest,
    head: string,
    base: string,
    receipts: string,
    inventory: Inventory,
    exports: string)

  // ---- The current-attempt pointer

  datatype Status = Open | Abandoned | Sealed | Reopened

  datatype Pointer = Pointer(
    attempt: Digest,
    head: string,
    status: Status,
    transition: Option<Digest>,
    frozen: Option<Inventory>,
    sealId: Option<Digest>,
    sealSha: Option<Digest>)

  // ---- Transition journals

  datatype Kind = Begin | Abandon | Seal | Reopen

  datatype Phase =
    | Prepared
    | LedgerAppended
    | DirectoryCreated
    | PointerOpen
    | TerminalWritten
    | PointerAbandoned
    | SealWritten
    | PointerSealed
    | PointerReopened
    | Committed

  datatype Inputs =
    | BeginInputs(head: string, plan: string, round: string, tip: Digest)
    | TerminalInputs(attempt: Digest, plan: string, round: string, failureSha: Digest,
                     failurePath: Path, tip: Digest, sealSha: Option<Digest>)
    | SealInputs(attempt: Digest, head: string, plan: string, round: string, tip: Digest,
                 attestationSha: Digest, inventorySha: Digest, exportsSha: Digest)

  datatype Payload =
    | BeginPayload(prior: Option<Digest>)
    | TerminalPayload(pointerSha: Digest, inventory: Inventory, exports: string)
    | SealPayload(pointerSha: Digest, ledgerSha: Digest, inventory: Inventory, exports: string,
                  attestation: Attestation)

  datatype Journal = Journal(kind: Kind, id: Digest, phase: Phase, inputs: Inputs, payload: Payload)

  /** The file name `<kind>-<id>.json` under `lifecycle-journals`. */
  datatype JournalKey = JournalKey(kind: Kind, id: Digest)

  // ---- The whole root

  type Captures = map<string, string>

  datatype Disk = Disk(
    ledger: seq<Entry>,
    pointer: Option<Pointer>,
    journals: map<JournalKey, Journal>,
    attempts: map<Digest, Files>,
    captures: Captures)

  datatype Contract = Contract(plan: string, round: string, base: string)

  /**
   What the transitions consult but never write. `clock(i)` is the clock reading taken by the
   append that writes sequence `i`. The other fields stand for the argument, receipt and
   export validators; each is a deterministic function of the files it is given.
   */
  datatype Environment = Environment(
    contract: Contract,
    clock: nat -> string,
    admissible: (string, Event, string) -> bool,
    terminalReceipt: (Files, string, Digest, string) -> bool,
    exports: (Files, Captures, Digest) -> Option<string>,
    attest: (Files, Captures, Digest, string, string, Inventory, string) -> Option<string>)

  datatype Command =
    | BeginCommand(plan: string, round: string, head: string)
    | AbandonCommand(plan: string, round: string, failure: Path)
    | SealCommand(plan: string, round: string, head: string, output: Path)
    | ReopenCommand(plan: string, round: string, failure: Path)

  /** Every way a command or an append can fail closed. */
  datatype Refusal =
    | PlanIdentityDisagrees
    | JournalImpossible
    | JournalUntrusted
    | MultipleNonterminalJournals
    | AnotherTransitionNonterminal
    | JournalOfAnotherPlan
    | PointerInvalid
    | PriorNotFrozen
    | AttemptIdCollides
    | AlreadyCommitted
    | JournalInputsChanged
    | OpenInventoryChanged
    | DuplicateEvents
    | EventNotBound
    | LedgerChanged
    | PointerChanged
    | AttemptDirectoryNotEmpty
    | PointerNotRecoverable
    | WrongPointerStatus
    | FailureReceiptInvalid
    | FailureReceiptChanged
    | ExportsChanged
    | AttemptInventoryChanged
    | AttemptDirectoryMissing
    | SealFileMissing
    | SealFileNotExact
    | MarkerNotExact
    | OutputNotAttemptLocal
    | PresealFilesInvalid
    | AttestationChanged
    | NestedDirectory
    | LedgerInvalid
    | LedgerSealed
    | ExternallySealed
    | LifecycleRelationInvalid
    | PointerDisagrees
    | NotThePendingTransition
    | PrivateActionRequired
    | NotAdmissible
    | PreviousHashMismatch
    | SealSchemaInvalid
    | SealBoundElsewhere
    | AuthorityPointerNotExact
    | AuthorityNoActiveAttempt
    | AuthorityAnotherHead

  const MARKER := "attempt-abandoned.json"
  const SEAL := "operations-seal.json"
  const CONTROL: set<string> := {MARKER, SEAL}
  const POSTSEAL: set<string> := {"f1-history.json", "f1-review.md", "f4-scope.json", "f4-review.md"}
  const PRESEAL: set<string> := {
    "f2-static.json", "f2-code-review.md", "f2-security-review.md",
    "f3-scripted.json", "f3-capture.json", "f3-live.json", "f3-manual-qa.md"}

  function TerminalFailures(kind: Kind): set<string> {
    if kind == Abandon then {"f2-failure.json", "f3-failure.json"}
    else {"f1-review.md", "f4-review.md"}
  }

  predicate IsLowerHex(c: char) { '0' <= c <= '9' || 'a' <= c <= 'f' }

  /** `f2-static.<node>.<16 hex digits>.json`, the name of an F2 child receipt. */
  predicate IsChildReceipt(name: string) {
    && 33 <= |name| <= 96
    && name[..10] == "f2-static."
    && 'a' <= name[10] <= 'z'
    && (forall i | 11 <= i < |name| - 22 :: 'a' <= name[i] <= 'z' || '0' <= name[i] <= '9' || name[i] == '-')
    && name[|name|-22] == '.'
    && (forall i | |name| - 21 <= i < |name| - 5 :: IsLowerHex(name[i]))
    && name[|name|-5..] == ".json"
  }

  function PhasesOf(kind: Kind): set<Phase> {
    match kind
    case Begin => {Prepared, LedgerAppended, DirectoryCreated, PointerOpen, Committed}
    case Abandon => {Prepared, LedgerAppended, TerminalWritten, PointerAbandoned, Committed}
    case Seal => {Prepared, SealWritten, PointerSealed, Committed}
    case Reopen => {Prepared, LedgerAppended, PointerReopened, Committed}
  }

  function CommandKind(cmd: Command): Kind {
    match cmd
    case BeginCommand(_, _, _) => Begin
    case AbandonCommand(_, _, _) => Abandon
    case SealCommand(_, _, _, _) => Seal
    case ReopenCommand(_, _, _) => Reopen
  }

  /** The journal envelope: phase, inputs and payload belong to the journal's kind. */
  predicate WellShaped(j: Journal) {
    && j.phase in PhasesOf(j.kind)
    && match j.kind
       case Begin => j.inputs.BeginInputs? && j.payload.BeginPayload?
       case Seal => j.inputs.SealInputs? && j.payload.SealPayload?
       case Abandon => j.inputs.TerminalInputs? && j.payload.TerminalPayload?
       case Reopen => j.inputs.TerminalInputs? && j.payload.TerminalPayload?
  }

  /** The pointer schema: which extra fields each status carries. */
  predicate PointerShape(p: Pointer) {
    && (p.transition.Some? <==> p.status in {Abandoned, Reopened})
    && (p.frozen.Some? <==> p.status in {Abandoned, Reopened})
    && (p.sealId.Some? <==> p.status in {Sealed, Reopened})
    && (p.sealSha.Some? <==> p.status in {Sealed, Reopened})
  }

  function PointerHash(p: Option<Pointer>): Option<Digest> {
    match p
    case None => None
    case Some(q) => Some(Digest(PointerDoc(q)))
  }

  function OpenPointer(attempt: Digest, head: string): Pointer {
    Pointer(attempt, head, Open, None, None, None, None)
  }

  function Without(files: Files, names: set<string>): Files {
    map p | p in files && p !in names :: files[p]
  }

  /** `_inventory(dir, excluded=...)`: path and digest of every retained file, and their digest. */
  function InventoryOf(files: Files, excluded: set<string>): Inventory {
    var listed := map p | p in files && p !in excluded :: Digest(ContentDoc(files[p]));
    Inventory(listed, Digest(InventoryDoc(listed)))
  }

  // ---- What the ledger's writer trusts

  /** `_valid_inventory`, as far as digests decide it: the inventory's digest is that of its files. */
  predicate ValidInventory(inventory: Inventory) {
    inventory.sha == Digest(InventoryDoc(inventory.files))
  }

  /** `_validate_seal_prerequisite_attestation`: a seal journal's attestation against its own digest. */
  predicate AttestationBound(j: Journal)
    requires WellShaped(j) && j.kind == Seal
  {
    && ValidInventory(j.payload.attestation.inventory)
    && j.inputs.attestationSha == Digest(AttestationDoc(j.payload.attestation))
  }

  /** `_validate_journal_shape`, the writer's own reading of a journal. */
  predicate TrustedJournal(j: Journal) {
    WellShaped(j) && (j.kind == Seal ==> AttestationBound(j))
  }

  /** The writer's own reading of the pointer: its schema and its frozen inventory. */
  predicate TrustedPointer(p: Pointer) {
    PointerShape(p) && (p.frozen.Some? ==> ValidInventory(p.frozen.value))
  }

  predicate Flat(files: Files) {
    forall p | p in files :: '/' !in p
  }
}
