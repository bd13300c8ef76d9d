/**
 The four transitions as a small-step protocol. `Step(env, cmd, d)` is the first durable write
 that the command makes when it is invoked on disk `d`, every recovery check included: a crash
 at a hook boundary leaves the disk between two such writes, because an atomic JSON write leaves
 the old or the new value. `Run` lets a command make at most `budget` writes before the hook
 raises.
 */
module AttemptTransitions {
  import opened Wrappers
  import opened AttemptModel
  import opened OperationsLedger

  datatype StepResult =
    | Refuse(why: Refusal)
    | Write(next: Disk)
    | Commit(next: Disk, result: Pointer)  // the last write of a transition

  datatype Outcome =
    | Completed(result: Pointer)
    | Interrupted
    | Refused(why: Refusal)

  datatype RunResult = RunResult(disk: Disk, outcome: Outcome)

  function Run(env: Environment, cmd: Command, d: Disk, budget: nat): RunResult
    decreases budget
  {
    match Step(env, cmd, d)
    case Refuse(why) => RunResult(d, Refused(why))
    case Write(next) =>
      if budget == 0 then RunResult(d, Interrupted) else Run(env, cmd, next, budget - 1)
    case Commit(next, result) =>
      if budget == 0 then RunResult(d, Interrupted) else RunResult(next, Completed(result))
  }

  // ---- Entry: find the pending journal, or prepare a new one

  function Step(env: Environment, cmd: Command, d: Disk): StepResult {
    if env.contract.plan != cmd.plan || env.contract.round != cmd.round then Refuse(PlanIdentityDisagrees)
    else
      match Candidate(d.journals)
      case Failure(e) => Refuse(e)
      case Success(None) =>
        (match Prepare(env, cmd, d)
         case Failure(e) => Refuse(e)
         case Success(j) => Write(PutJournal(d, j)))
      case Success(Some(key)) =>
        if d.journals[key].kind != CommandKind(cmd) then Refuse(AnotherTransitionNonterminal)
        else if !PlanMatches(d.journals[key].inputs, cmd) then Refuse(JournalOfAnotherPlan)
        else Resume(env, cmd, d, d.journals[key], key)
  }

  predicate PlanMatches(inputs: Inputs, cmd: Command) {
    inputs.plan == cmd.plan && inputs.round == cmd.round
  }

  function KeyOf(j: Journal): JournalKey {
    JournalKey(j.kind, j.id)
  }

  function PutJournal(d: Disk, j: Journal): Disk {
    d.(journals := d.journals[KeyOf(j) := j])
  }

  function Advance(d: Disk, j: Journal, phase: Phase): Disk {
    PutJournal(d, j.(phase := phase))
  }

  function ReadPointer(d: Disk): Result<Option<Pointer>, Refusal> {
    if d.pointer.Some? && !PointerShape(d.pointer.value) then Failure(PointerInvalid)
    else Success(d.pointer)
  }

  function Prepare(env: Environment, cmd: Command, d: Disk): (r: Result<Journal, Refusal>)
    ensures r.Success? ==> WellShaped(r.value) && r.value.kind == CommandKind(cmd) && r.value.phase == Prepared
  {
    match cmd
    case BeginCommand(_, _, _) => PrepareBegin(env, cmd, d)
    case AbandonCommand(_, _, _) => PrepareTerminal(env, Abandon, cmd, d)
    case SealCommand(_, _, _, _) => PrepareSeal(env, cmd, d)
    case ReopenCommand(_, _, _) => PrepareTerminal(env, Reopen, cmd, d)
  }

  /** A pending journal is validated in full, and then makes the write of its phase. */
  function Resume(env: Environment, cmd: Command, d: Disk, j: Journal, key: JournalKey): StepResult
    requires WellShaped(j) && j.kind == CommandKind(cmd)
  {
    match RefusalOf(env, cmd, d, j, key)
    case Some(why) => Refuse(why)
    case None => WriteOf(env, d, j)
  }

  /** The checks that open `_resume_begin`, `_resume_terminal` and `_resume_seal`. */
  function RefusalOf(env: Environment, cmd: Command, d: Disk, j: Journal, key: JournalKey): (r: Option<Refusal>)
    requires WellShaped(j) && j.kind == CommandKind(cmd)
    ensures r.None? && j.kind != Begin ==> AttemptInHand(d, j)
  {
    match cmd
    case BeginCommand(_, _, _) => BeginRefusal(env, cmd, d, j, key)
    case AbandonCommand(_, _, _) => TerminalRefusal(env, cmd, d, j, key)
    case SealCommand(_, _, _, _) => SealRefusal(env, cmd, d, j, key)
    case ReopenCommand(_, _, _) => TerminalRefusal(env, cmd, d, j, key)
  }

  function WriteOf(env: Environment, d: Disk, j: Journal): StepResult
    requires WellShaped(j) && (j.kind != Begin ==> AttemptInHand(d, j))
  {
    match j.kind
    case Begin => BeginWrite(env, d, j)
    case Abandon => TerminalWrite(env, d, j)
    case Seal => SealWrite(d, j)
    case Reopen => TerminalWrite(env, d, j)
  }

  // ---- begin

  /** `_assert_prior_frozen`: the last attempt is untouched since it was closed. */
  predicate PriorFrozen(d: Disk, p: Pointer) {
    && p.attempt in d.attempts
    && var files := d.attempts[p.attempt];
    && match p.status
       case Abandoned =>
         && MARKER in files
         && files[MARKER].MarkerFile?
         && files[MARKER].marker.inventory == InventoryOf(files, {MARKER})
         && p.frozen == Some(InventoryOf(files, {}))
       case Reopened => p.frozen == Some(InventoryOf(files, {}))
       case _ => false
  }

  function PrepareBegin(env: Environment, cmd: Command, d: Disk): (r: Result<Journal, Refusal>)
    requires cmd.BeginCommand?
    ensures r.Success? ==> WellShaped(r.value) && r.value.kind == Begin && r.value.phase == Prepared
  {
    match ReadPointer(d)
    case Failure(e) => Failure(e)
    case Success(prior) =>
      if prior.Some? && !PriorFrozen(d, prior.value) then Failure(PriorNotFrozen)
      else if !ChainOk(env, d.ledger) then Failure(LedgerInvalid)
      else
        var inputs := BeginInputs(cmd.head, cmd.plan, cmd.round, Tip(d.ledger));
        var id := Digest(InputsDoc(inputs));
        if id in d.attempts then Failure(AttemptIdCollides)
        else if JournalKey(Begin, id) in d.journals then Failure(AlreadyCommitted)
        else Success(Journal(Begin, id, Prepared, inputs, BeginPayload(PointerHash(d.pointer))))
  }

  /** The checks that open `_resume_begin`. */
  function BeginRefusal(env: Environment, cmd: Command, d: Disk, j: Journal, key: JournalKey): Option<Refusal>
    requires cmd.BeginCommand? && WellShaped(j) && j.kind == Begin
  {
    if j.inputs.head != cmd.head || Digest(InputsDoc(j.inputs)) != j.id || key != KeyOf(j)
      then Some(JournalInputsChanged)
    else if !ChainOk(env, d.ledger) then Some(LedgerInvalid)
    else if j.phase in {DirectoryCreated, PointerOpen} && !(j.id in d.attempts && d.attempts[j.id] == map[])
      then Some(OpenInventoryChanged)
    else EventsRefusal(d.ledger, ExpectedEvent(j), j.inputs.tip)
  }

  /** At most one matching event, bound to the prepared tip; or none and the tip unmoved. */
  function EventsRefusal(ledger: seq<Entry>, event: Event, tip: Digest): Option<Refusal>
    requires ledger != []
  {
    var events := Events(ledger, event);
    if |events| > 1 then Some(DuplicateEvents)
    else if |events| == 1 then
      if events[0].previous != Some(tip) then Some(EventNotBound) else None
    else if Tip(ledger) != tip then Some(LedgerChanged)
    else None
  }

  /** The write that `_resume_begin` makes in the journal's phase. */
  function BeginWrite(env: Environment, d: Disk, j: Journal): StepResult
    requires WellShaped(j) && j.kind == Begin
  {
    var expected := OpenPointer(j.id, j.inputs.head);
    if j.phase == Prepared then
      if PointerHash(d.pointer) != j.payload.prior then Refuse(PointerChanged)
      else if Events(d.ledger, ExpectedEvent(j)) == [] then AppendEvent(env, d, j)
      else Write(Advance(d, j, LedgerAppended))
    else if j.phase == LedgerAppended then
      if j.id !in d.attempts then Write(d.(attempts := d.attempts[j.id := map[]]))
      else if d.attempts[j.id] != map[] then Refuse(AttemptDirectoryNotEmpty)
      else Write(Advance(d, j, DirectoryCreated))
    else if j.phase == DirectoryCreated then
      if d.pointer == None || PointerHash(d.pointer) == j.payload.prior then Write(d.(pointer := Some(expected)))
      else if d.pointer != Some(expected) then Refuse(PointerNotRecoverable)
      else Write(Advance(d, j, PointerOpen))
    else if d.pointer != Some(expected) then Refuse(PointerChanged)
    else Commit(Advance(d, j, Committed), expected)
  }

  /** The private lifecycle append of the pending journal's own event. */
  function AppendEvent(env: Environment, d: Disk, j: Journal): StepResult
    requires WellShaped(j) && j.kind != Seal
  {
    match Append(env, d, "final-attempt", ExpectedEvent(j), "passed", Some(j.inputs.tip), true)
    case Failure(e) => Refuse(e)
    case Success(ledger) => Write(d.(ledger := ledger))
  }

  // ---- abandon and reopen

  function InitialStatus(kind: Kind): Status { if kind == Abandon then Open else Sealed }

  function FinalStatus(kind: Kind): Status { if kind == Abandon then Abandoned else Reopened }

  /** Files that decide receipts and exports: everything but the two control files. */
  function EvidenceFiles(files: Files): Files { Without(files, CONTROL) }

  /** Files that decide exports and the prerequisite attestation. */
  function PresealEvidence(files: Files): Files { Without(files, CONTROL + POSTSEAL) }

  /** `_failure_receipt`: the digest of an attempt-local terminal failure receipt. */
  function FailureReceipt(env: Environment, d: Disk, path: Path, kind: Kind, attempt: Digest,
      head: string): Option<Digest> {
    if path.attempt != attempt || path.name !in TerminalFailures(kind) then None
    else if attempt !in d.attempts || path.name !in d.attempts[attempt] then None
    else if !env.terminalReceipt(EvidenceFiles(d.attempts[attempt]), path.name, attempt, head) then None
    else Some(Digest(ContentDoc(d.attempts[attempt][path.name])))
  }

  function ExportsOf(env: Environment, d: Disk, attempt: Digest): Option<string> {
    if attempt !in d.attempts then None
    else env.exports(PresealEvidence(d.attempts[attempt]), d.captures, attempt)
  }

  function PrepareTerminal(env: Environment, kind: Kind, cmd: Command, d: Disk): (r: Result<Journal, Refusal>)
    requires cmd.AbandonCommand? || cmd.ReopenCommand?
    requires kind == CommandKind(cmd)
    ensures r.Success? ==> WellShaped(r.value) && r.value.kind == kind && r.value.phase == Prepared
  {
    match ReadPointer(d)
    case Failure(e) => Failure(e)
    case Success(None) => Failure(WrongPointerStatus)
    case Success(Some(p)) =>
      if p.status != InitialStatus(kind) then Failure(WrongPointerStatus)
      else
        match FailureReceipt(env, d, cmd.failure, kind, p.attempt, p.head)
        case None => Failure(FailureReceiptInvalid)
        case Some(failureSha) =>
          if !ChainOk(env, d.ledger) then Failure(LedgerInvalid)
          else if kind == Reopen && SEAL !in d.attempts[p.attempt] then Failure(SealFileMissing)
          else
            var sealSha := if kind == Reopen then Some(Digest(ContentDoc(d.attempts[p.attempt][SEAL]))) else None;
            var inputs := TerminalInputs(p.attempt, cmd.plan, cmd.round, failureSha, cmd.failure, Tip(d.ledger),
              sealSha);
            var id := Digest(InputsDoc(inputs));
            if JournalKey(kind, id) in d.journals then Failure(AlreadyCommitted)
            else
              match ExportsOf(env, d, p.attempt)
              case None => Failure(ExportsChanged)
              case Some(exports) =>
                Success(Journal(kind, id, Prepared, inputs,
                                TerminalPayload(Digest(PointerDoc(p)), InventoryOf(d.attempts[p.attempt], {}),
                                  exports)))
  }

  function TerminalExclusion(kind: Kind): set<string> { if kind == Abandon then {MARKER} else {} }

  /** The checks that open `_resume_terminal`. */
  function TerminalRefusal(env: Environment, cmd: Command, d: Disk, j: Journal, key: JournalKey): (r: Option<Refusal>)
    requires cmd.AbandonCommand? || cmd.ReopenCommand?
    requires WellShaped(j) && j.kind == CommandKind(cmd)
    ensures r.None? ==> AttemptInHand(d, j)
  {
    match ReadPointer(d)
    case Failure(e) => Some(e)
    case Success(None) => Some(JournalInputsChanged)
    case Success(Some(p)) =>
      if p.attempt != j.inputs.attempt then Some(JournalInputsChanged)
      else
        match FailureReceipt(env, d, cmd.failure, j.kind, p.attempt, p.head)
        case None => Some(FailureReceiptInvalid)
        case Some(failureSha) =>
          if failureSha != j.inputs.failureSha || cmd.failure != j.inputs.failurePath then Some(FailureReceiptChanged)
          else if ExportsOf(env, d, p.attempt) != Some(j.payload.exports) then Some(ExportsChanged)
          else if InventoryOf(d.attempts[p.attempt], TerminalExclusion(j.kind)) != j.payload.inventory
            then Some(AttemptInventoryChanged)
          else if Digest(InputsDoc(j.inputs)) != j.id || key != KeyOf(j) then Some(JournalInputsChanged)
          else if !ChainOk(env, d.ledger) then Some(LedgerInvalid)
          else EventsRefusal(d.ledger, ExpectedEvent(j), j.inputs.tip)
  }

  function MarkerOf(j: Journal): Content
    requires WellShaped(j) && j.kind == Abandon
  {
    MarkerFile(Marker(j.inputs.attempt, j.id, j.inputs.failureSha, j.payload.inventory))
  }

  /** The pointer that closes the attempt: the current one with status, transition and inventory set. */
  function ClosedPointer(p: Pointer, kind: Kind, id: Digest, files: Files): Pointer {
    p.(status := FinalStatus(kind), transition := Some(id), frozen := Some(InventoryOf(files, {})))
  }

  function PutFile(d: Disk, attempt: Digest, name: string, content: Content): Disk
    requires attempt in d.attempts
  {
    d.(attempts := d.attempts[attempt := d.attempts[attempt][name := content]])
  }

  /** The current attempt is the journal's, and its directory exists. */
  predicate AttemptInHand(d: Disk, j: Journal)
    requires WellShaped(j) && j.kind != Begin
  {
    d.pointer.Some? && d.pointer.value.attempt == j.inputs.attempt && j.inputs.attempt in d.attempts
  }

  /** The write that `_resume_terminal` makes in the journal's phase. */
  function TerminalWrite(env: Environment, d: Disk, j: Journal): StepResult
    requires WellShaped(j) && (j.kind == Abandon || j.kind == Reopen) && AttemptInHand(d, j)
  {
    if j.phase == Prepared then TerminalAppend(env, d, j)
    else if j.kind == Abandon && j.phase == LedgerAppended then WriteMarker(d, j)
    else if j.kind == Abandon && !MarkerExact(d, j) then Refuse(MarkerNotExact)
    else ClosePointer(d, j)
  }

  function TerminalAppend(env: Environment, d: Disk, j: Journal): StepResult
    requires WellShaped(j) && (j.kind == Abandon || j.kind == Reopen) && AttemptInHand(d, j)
  {
    if d.pointer.value.status != InitialStatus(j.kind) || Digest(PointerDoc(d.pointer.value)) != j.payload.pointerSha
      then Refuse(PointerChanged)
    else if Events(d.ledger, ExpectedEvent(j)) == [] then AppendEvent(env, d, j)
    else Write(Advance(d, j, LedgerAppended))
  }

  predicate MarkerExact(d: Disk, j: Journal)
    requires WellShaped(j) && j.kind == Abandon
  {
    && j.inputs.attempt in d.attempts
    && MARKER in d.attempts[j.inputs.attempt]
    && d.attempts[j.inputs.attempt][MARKER] == MarkerOf(j)
  }

  function WriteMarker(d: Disk, j: Journal): StepResult
    requires WellShaped(j) && j.kind == Abandon && AttemptInHand(d, j)
  {
    if MARKER !in d.attempts[j.inputs.attempt] then Write(PutFile(d, j.inputs.attempt, MARKER, MarkerOf(j)))
    else if !MarkerExact(d, j) then Refuse(MarkerNotExact)
    else Write(Advance(d, j, TerminalWritten))
  }

  function ClosingPhase(kind: Kind): Phase { if kind == Abandon then TerminalWritten else LedgerAppended }

  function ClosedPhase(kind: Kind): Phase { if kind == Abandon then PointerAbandoned else PointerReopened }

  function ClosePointer(d: Disk, j: Journal): StepResult
    requires WellShaped(j) && (j.kind == Abandon || j.kind == Reopen) && AttemptInHand(d, j)
  {
    var p := d.pointer.value;
    var expected := ClosedPointer(p, j.kind, j.id, d.attempts[p.attempt]);
    if j.phase == ClosingPhase(j.kind) then
      if p.status == InitialStatus(j.kind) then Write(d.(pointer := Some(expected)))
      else if p != expected then Refuse(PointerNotRecoverable)
      else Write(Advance(d, j, ClosedPhase(j.kind)))
    else if p != expected then Refuse(PointerChanged)
    else Commit(Advance(d, j, Committed), expected)
  }

  // ---- seal

  predicate PresealFilesOk(files: Files) {
    && Flat(files)
    && PRESEAL <= files.Keys
    && (forall p | p in files && p !in PRESEAL :: IsChildReceipt(p))
    && (forall p | p in PRESEAL && p in files :: files[p] != Evidence(""))
  }

  /** `prerequisite_attestation` over the current files, inventory and exports. */
  function Attest(env: Environment, files: Files, captures: Captures, attempt: Digest, head: string,
                  inventory: Inventory, exports: string): Option<Attestation>
  {
    var base := env.contract.base;
    match env.attest(PresealEvidence(files), captures, attempt, head, base, inventory, exports)
    case None => None
    case Some(receipts) => Some(Attestation(attempt, head, base, receipts, inventory, exports))
  }

  function SealInputsOf(a: Attestation, plan: string, round: string, tip: Digest): Inputs {
    SealInputs(a.attempt, a.head, plan, round, tip, Digest(AttestationDoc(a)),
               Digest(InventoryDoc(a.inventory.files)), Digest(ExportsDoc(a.exports)))
  }

  function PrepareSeal(env: Environment, cmd: Command, d: Disk): (r: Result<Journal, Refusal>)
    requires cmd.SealCommand?
    ensures r.Success? ==> WellShaped(r.value) && r.value.kind == Seal && r.value.phase == Prepared
  {
    match ReadPointer(d)
    case Failure(e) => Failure(e)
    case Success(None) => Failure(WrongPointerStatus)
    case Success(Some(p)) =>
      if p.status != Open || p.head != cmd.head then Failure(WrongPointerStatus)
      else if cmd.output != Path(p.attempt, SEAL) then Failure(OutputNotAttemptLocal)
      else if p.attempt !in d.attempts then Failure(AttemptDirectoryMissing)
      else if !PresealFilesOk(d.attempts[p.attempt]) then Failure(PresealFilesInvalid)
      else
        var inventory := InventoryOf(d.attempts[p.attempt], {});
        match ExportsOf(env, d, p.attempt)
        case None => Failure(ExportsChanged)
        case Some(exports) =>
          match Attest(env, d.attempts[p.attempt], d.captures, p.attempt, cmd.head, inventory, exports)
          case None => Failure(AttestationChanged)
          case Some(a) =>
            if !ChainOk(env, d.ledger) then Failure(LedgerInvalid)
            else
              var inputs := SealInputsOf(a, cmd.plan, cmd.round, Tip(d.ledger));
              var id := Digest(InputsDoc(inputs));
              if JournalKey(Seal, id) in d.journals then Failure(AlreadyCommitted)
              else Success(Journal(Seal, id, Prepared, inputs,
                                   SealPayload(Digest(PointerDoc(p)), Digest(LedgerDoc(d.ledger)), inventory, exports,
                                     a)))
  }

  /** The checks that open `_resume_seal`. */
  function SealRefusal(env: Environment, cmd: Command, d: Disk, j: Journal, key: JournalKey): (r: Option<Refusal>)
    requires cmd.SealCommand? && WellShaped(j) && j.kind == Seal
    ensures r.None? ==> AttemptInHand(d, j)
  {
    match ReadPointer(d)
    case Failure(e) => Some(e)
    case Success(None) => Some(JournalInputsChanged)
    case Success(Some(p)) =>
      if j.inputs.head != cmd.head || Digest(InputsDoc(j.inputs)) != j.id || key != KeyOf(j)
        then Some(JournalInputsChanged)
      else if p.attempt != j.inputs.attempt then Some(JournalInputsChanged)
      else if p.attempt !in d.attempts then Some(AttemptDirectoryMissing)
      else if !Flat(d.attempts[p.attempt]) then Some(NestedDirectory)
      else
        match ExportsOf(env, d, p.attempt)
        case None => Some(ExportsChanged)
        case Some(exports) =>
          if j.payload.attestation.base != env.contract.base then Some(AttestationChanged)
          else
            var inventory := InventoryOf(d.attempts[p.attempt], {SEAL});
            match Attest(env, d.attempts[p.attempt], d.captures, p.attempt, cmd.head, inventory, exports)
            case None => Some(AttestationChanged)
            case Some(a) =>
              if exports != j.payload.exports then Some(ExportsChanged)
              else if a != j.payload.attestation then Some(AttestationChanged)
              else if SealInputsOf(a, j.inputs.plan, j.inputs.round, j.inputs.tip) != j.inputs
                then Some(AttestationChanged)
              else if inventory != j.payload.inventory then Some(AttemptInventoryChanged)
              else if cmd.output != Path(p.attempt, SEAL) then Some(OutputNotAttemptLocal)
              else None
  }

  function SealOf(j: Journal): SealRecord
    requires WellShaped(j) && j.kind == Seal
  {
    SealRecord(j.inputs.attempt, j.id, j.inputs.head, j.inputs.plan, j.inputs.round, j.inputs.tip,
               j.payload.ledgerSha, j.inputs.attestationSha, j.inputs.inventorySha, j.inputs.exportsSha)
  }

  function SealedPointer(p: Pointer, id: Digest, sealFile: Content): Pointer {
    p.(status := Sealed, sealId := Some(id), sealSha := Some(Digest(ContentDoc(sealFile))))
  }

  /** The write that `_resume_seal` makes in the journal's phase. */
  function SealWrite(d: Disk, j: Journal): StepResult
    requires WellShaped(j) && j.kind == Seal && AttemptInHand(d, j)
  {
    if j.phase == Prepared then WriteSeal(d, j) else SealPointer(d, j)
  }

  function WriteSeal(d: Disk, j: Journal): StepResult
    requires WellShaped(j) && j.kind == Seal && AttemptInHand(d, j)
  {
    var p := d.pointer.value;
    var files := d.attempts[p.attempt];
    if p.status != Open || Digest(PointerDoc(p)) != j.payload.pointerSha then Refuse(PointerChanged)
    else if SEAL !in files then Write(PutFile(d, p.attempt, SEAL, SealFile(SealOf(j))))
    else if files[SEAL] != SealFile(SealOf(j)) then Refuse(SealFileNotExact)
    else Write(Advance(d, j, SealWritten))
  }

  function SealPointer(d: Disk, j: Journal): StepResult
    requires WellShaped(j) && j.kind == Seal && AttemptInHand(d, j)
  {
    var p := d.pointer.value;
    var files := d.attempts[p.attempt];
    if SEAL !in files then Refuse(SealFileMissing)
    else
      var expected := SealedPointer(p, j.id, files[SEAL]);
      if j.phase == SealWritten then
        if p.status == Open then Write(d.(pointer := Some(expected)))
        else if p != expected then Refuse(PointerNotRecoverable)
        else Write(Advance(d, j, PointerSealed))
      else if p != expected then Refuse(PointerChanged)
      else if Digest(LedgerDoc(d.ledger)) != j.payload.ledgerSha then Refuse(LedgerChanged)
      else Commit(Advance(d, j, Committed), expected)
  }

  /** `validate_seal`: the seal file against the ledger, the evidence and the pointer. */
  function ValidateSeal(env: Environment, d: Disk, seal: Path, head: string, attempt: Digest, plan: string,
      round: string)
    : Result<SealRecord, Refusal>
  {
    if env.contract.plan != plan || env.contract.round != round then Failure(PlanIdentityDisagrees)
    else if seal.attempt !in d.attempts || seal.name !in d.attempts[seal.attempt] then Failure(SealFileMissing)
    else
      var files := d.attempts[seal.attempt];
      if !files[seal.name].SealFile? then Failure(SealSchemaInvalid)
      else
        var s := files[seal.name].seal;
        if s.head != head || s.attempt != attempt || s.plan != plan || s.round != round then Failure(SealBoundElsewhere)
        else if s.ledgerSha != Digest(LedgerDoc(d.ledger)) then Failure(LedgerChanged)
        else if !ChainOk(env, d.ledger) then Failure(LedgerInvalid)
        else if s.tip != Tip(d.ledger) then Failure(LedgerChanged)
        else if !Flat(files) then Failure(NestedDirectory)
        else
          var inventory := InventoryOf(files, {SEAL} + POSTSEAL);
          match env.exports(PresealEvidence(files), d.captures, attempt)
          case None => Failure(ExportsChanged)
          case Some(exports) =>
            match Attest(env, files, d.captures, attempt, head, inventory, exports)
            case None => Failure(AttestationChanged)
            case Some(a) =>
              var inputs := SealInputsOf(a, plan, round, s.tip);
              if inputs.attestationSha != s.attestationSha || inputs.inventorySha != s.inventorySha
                || inputs.exportsSha != s.exportsSha
              then Failure(AttestationChanged)
              else if s.sealId != Digest(InputsDoc(inputs)) then Failure(SealSchemaInvalid)
              else if !SealPointerMatches(d, s, Digest(ContentDoc(files[seal.name]))) then Failure(PointerDisagrees)
              else Success(s)
  }

  predicate SealPointerMatches(d: Disk, s: SealRecord, fileSha: Digest) {
    && d.pointer.Some?
    && PointerShape(d.pointer.value)
    && d.pointer.value.status == Sealed
    && d.pointer.value.attempt == s.attempt && d.pointer.value.head == s.head
    && d.pointer.value.sealId == Some(s.sealId) && d.pointer.value.sealSha == Some(fileSha)
  }
}
