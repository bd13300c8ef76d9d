# Evidence lifecycle, operations ledger and their neighbours

A Dafny 4.11 model of the parts of the repository in which state is hard to keep right, with
proofs of what they promise. `dafny verify dfyconfig.toml` checks everything.

## What is modelled

**The final-attempt lifecycle** (`Attempt*.dfy`, `OperationsLedger.dfy`, `EvidenceRoot.dfy`). One
evidence root holds an append-only ledger, the current-attempt record, transition journals,
attempt directories and seal files. `begin`, `abandon`, `seal` and `reopen` each write a journal
in phase `prepared` and then walk a list of phases with one durable write per phase. A hook may
stop a command between any two writes: a command comes with a budget, the number of durable
writes it makes before the hook raises. `AttemptTransitions` gives each command's next durable
write as a function of the disk, with every condition the code evaluates; `EvidenceRoot` is the
imperative object whose methods follow the code phase by phase and are proved to leave exactly
that disk. The invariant (`AttemptInvariant`) ties ledger, record, journals and seal together.
`AttemptAdmission`, `AttemptChecks` and `AttemptSealEvidence` say in plain terms of the disk, file
names and statuses written out, when each command prepares, goes on, commits and validates.

**The bytes of the ledger** (`Utf8`, `CanonicalJson`, `JsonParser`, `JsonRoundTrip`,
`CanonicalText`, `LedgerLines`, `LedgerChain`, `LedgerRules`, `LedgerFile`, `LedgerBridge`,
`LedgerRefinement`). Canonical JSON lines, a complete reader with the
behaviour of `json.loads`, the hash chain over the lines, and a file that is appended to under
partial writes, raised hooks, failed rollbacks and sudden death. No property of the digest is
assumed: where two byte strings with one digest would be needed, a lemma returns them. The
bridge reads verified bytes as the lifecycle's ledger.

**The inventory of a directory** (`EvidenceInventory`, `InventoryRules`, `Sorting`, `Strings`), **the migration graph**
(`MigrationGraph`), **scheduler leadership and trigger reconciliation** (`SchedulerLeadership`,
`TriggerReconciliation`, `SchedulerNode`), **the Playwright receipt walk** (`PlaywrightReceipt`,
`PlaywrightWalk`, `PlaywrightRules`, `PlaywrightFaults`, `PlaywrightStack`, `PlaywrightNodeIds`) and
**plan-history validation** (`PlanHistory`, `PlanRules`). The modules named after rules and faults
state what is accepted in the fields and literal texts of the input, apart from the definitions that
the modelled code uses; lemmas tie the two together in both directions.

## Where the code does not do what one would expect

- A passed ordinary `seal` entry at the tip is refused only by the append itself, after `begin`,
  `abandon` or `reopen` has already written its journal. That journal then blocks every other
  transition and every append for good (`AttemptGuarantees.SealEntryWedges`).
- An abandon prepared while a marker file already lies in the attempt directory records an
  inventory with the marker and compares it with one without. It is just as stuck; the exact
  condition for both is `AttemptGuarantees.CompletesOrWedges`.
- A resumed seal hashes the seal file that it finds and does not compare it with the one it wrote.
  A file replaced between the stop and the resume is committed and never validates
  (`AttemptSealCommit.ReplacedSealNeverValidates`; exactly when a committed seal validates is
  `AttemptSealCommit.SealCommitVerdict`).
- The frozen-directory test compares files. An empty directory added to a frozen attempt is not
  noticed (`EvidenceInventory.EmptyDirectoryUnseen`).
- `true` is accepted as ledger schema version 1 (`LedgerChain.SchemaVersionMayBeTrue`).
- A job body can start after its process has lost the scheduler lock, because the health check is
  no lease (`SchedulerLeadership.BodyAfterLoss`; exactly when it starts under the lock is
  `SchedulerLeadership.BodyUnderLockExactly`).
- An active trigger whose changed schedule cannot be registered keeps its old job
  (`TriggerReconciliation.OutdatedJobExactly`), and one trigger that raises stops the whole pass
  (`TriggerReconciliation.PassFailsExactly`).
- Node ids printed for Playwright nodes are not unique (`PlaywrightNodeIds.NodeIdsCollide`); exactly
  when one is, and a condition on the nodes of a receipt, are in `PlaywrightNodeIds` too.

## Model

| member | source | states |
|---|---|---|
| `AttemptTheorems.ReachableStatesAgree` | scripts/final_attempt_lifecycle.py:95-139 | After any mix of commands stopped at any durable write, ordinary appends and changes to evidence files, starting from a new root, the system invariant holds |
| `AttemptTheorems.PointerFollowsLedger` | scripts/final_attempt_state.py:142-193 | The invariant spelled out: the ledger fold succeeds, at most one journal is nonterminal, without one the current-attempt record alone decides who is active, and a pending phase admits exactly its own before and after pair |
| `AttemptTheorems.ValidatorsAgree` | scripts/operation_ledger_writer.py:536-632 | In every reachable state the writer's own readings of the journals and of the current-attempt record, attestation and inventory digests included, accept and agree with the lifecycle's |
| `AttemptTheorems.ExactlyOnce` | scripts/final_attempt_lifecycle.py:179-213 | Each begin, abandon or reopen journal has at most one ledger entry, exactly one past `prepared`, directly behind the tip recorded in its inputs |
| `AttemptTheorems.EveryEventHasItsJournal` | scripts/operation_ledger_writer.py:671-746 | Conversely every lifecycle entry in the ledger is the one event of a journal on disk |
| `AttemptTheorems.RecoveryConverges` | scripts/final_attempt_lifecycle.py:142-237 | Stopping a command at any durable write, any number of times, and rerunning it ends on exactly the disk and result of the uninterrupted run, whenever that run completes; a rerun of a finished transition refuses and changes nothing |
| `AttemptTheorems.RecoveryUnderInterference` | scripts/final_attempt_lifecycle.py:374-538 | The same with any other commands, crashed or not, and any ordinary appends in between: the disk never leaves the pending transition's own path |
| `AttemptTheorems.OnlyOneCommandProceeds` | scripts/final_attempt_lifecycle.py:95-118 | With a journal pending, at most one command with one set of arguments can get past validation |
| `AttemptTheorems.CommittedRefuses` | scripts/final_attempt_lifecycle.py:119-139 | After the last write of a transition its own command refuses to start again |
| `AttemptTheorems.OrdinaryAppendAdmitted` | scripts/operation_ledger_writer.py:376-483 | In every reachable state an ordinary append is accepted if and only if its action is not a lifecycle action, its content is admissible, no transition is pending, no attempt is sealed, the tip is no passed `seal`, and the expected tip matches |
| `AttemptTheorems.OrdinaryAppendKeepsInv` | scripts/operation_ledger_writer.py:301-371 | Ordinary appends keep the system invariant |
| `AttemptSteps.StepKeepsInv` | scripts/final_attempt_lifecycle.py:142-237 | Every single durable write of every transition keeps the system invariant |
| `AttemptSteps.BeginWriteSafe` | scripts/final_attempt_lifecycle.py:170-237 | Each write of a begin, in every phase, keeps the invariant |
| `AttemptSteps.TerminalWriteSafe` | scripts/final_attempt_lifecycle.py:437-538 | Each write of an abandon or reopen keeps the invariant |
| `AttemptSteps.SealWriteSafe` | scripts/final_attempt_lifecycle.py:703-778 | Each write of a seal keeps the invariant |
| `AttemptSafety.PrepareKeepsInv` | scripts/final_attempt_lifecycle.py:541-635 | Writing a newly prepared journal, of any kind, keeps the invariant |
| `AttemptSafety.EventKeepsInv` | scripts/operation_ledger_writer.py:251-270 | Appending the pending transition's event keeps the invariant |
| `AttemptSafety.FreshAttempt` | scripts/final_attempt_lifecycle.py:102-118 | While a begin's own started entry is not in the ledger, no entry has ever started its attempt id, because each id hashes a tip |
| `AttemptRecovery.WriteStaysValid` | scripts/final_attempt_lifecycle.py:374-436 | After each write of a transition the checks that open its recovery still pass: validating again at every restart changes nothing |
| `AttemptRuns.ValidatedOnce` | scripts/final_attempt_lifecycle.py:638-702 | A command that validates once and then writes phase after phase does what a command restarted before every single write would do |
| `AttemptEffects.BeginCompletes` | scripts/final_attempt_lifecycle.py:77-139 | A begin that prepares its journal ends with exactly one started entry, an empty attempt directory, an open current-attempt record and a committed journal, if and only if the ledger accepts the entry; otherwise only its prepared journal is left |
| `AttemptEffects.FirstBeginCompletes` | scripts/final_attempt_lifecycle.py:77-139 | On a new root the first begin completes if and only if its entry is admissible and its directory is not taken |
| `AttemptEffects.TerminalCompletes` | scripts/final_attempt_lifecycle.py:296-371 | The same for abandon and reopen, with the whole final disk; abandon also needs that no marker file was there before |
| `AttemptEffects.SealCompletes` | scripts/final_attempt_lifecycle.py:541-635 | A seal that prepares its journal always completes, with the whole final disk, and does not touch the ledger |
| `AttemptEffects.PrivateAppend` | scripts/operation_ledger_writer.py:273-371 | The private append of a pending event succeeds exactly when the content is admissible and the tip is no passed `seal` |
| `AttemptSealing.SealFreezesLedger` | scripts/operation_ledger_writer.py:385-388 | From the write that prepares a seal, over any run, the ledger is unchanged or the first entry added to it is a seal's reopen |
| `AttemptSealing.SealValidates` | scripts/final_attempt_lifecycle.py:781-885 | A seal that completes without a stop validates, and stands |
| `AttemptSealCommit.SealCommitVerdict` | scripts/final_attempt_lifecycle.py:743-778 | At the commit of a seal, whatever stops and evidence changes led to it, the seal validates if and only if its file is still the one the transition wrote |
| `AttemptSealCommit.SealValidFromCommit` | scripts/final_attempt_lifecycle.py:781-885 | From that commit on, over any run that leaves the sealed evidence alone, the seal validates until its reopen entry if and only if its file was intact at the commit |
| `AttemptSealEvidence.ValidSealExactly` | scripts/final_attempt_lifecycle.py:781-885 | On any disk a seal validates if and only if its every field is what ledger, directory, exports and attestation say now, and the record is sealed with it |
| `AttemptSealEvidence.SealProtectsEvidence` | scripts/final_attempt_lifecycle.py:829-858 | From the commit of a validating seal, over any run and any change of the evidence up to the reopen entry: the seal validates only while the sealed files and their exports are those of the commit, and with unchanged captures if and only if they are |
| `AttemptSealEvidence.StandsUntilReopen` | scripts/operation_ledger_writer.py:376-483 | Over such a run ledger and record stay as they are until the reopen entry, whatever happens to the evidence |
| `AttemptSealCommit.ReplacedSealNeverValidates` | scripts/final_attempt_lifecycle.py:749-764 | For every content put in place of the seal file between a stop after `seal_written` and the resume: the seal completes, the current-attempt record carries that content's digest, and validation succeeds only if nothing was changed |
| `AttemptSealing.SealKeepsVerdict` | scripts/final_attempt_lifecycle.py:781-885 | Until the reopen entry the verdict of seal validation is the same over any run that leaves the sealed evidence alone |
| `AttemptFreeze.FrozenAtCommit` | scripts/final_attempt_state.py:196-223 | At the commit of an abandon or reopen, whatever stops and evidence changes led to it, the attempt directory passes the frozen test if and only if it is, file by file, what the commit left |
| `AttemptFreeze.FrozenUntilBegin` | scripts/final_attempt_state.py:196-223 | From that commit on, over any run that leaves the directory alone from outside, the test passes until a begin has replaced the current-attempt record, and with nothing pending a begin is admitted if and only if its own directory is free |
| `AttemptFreeze.ClosedUntilBegin` | scripts/final_attempt_lifecycle.py:102-139 | Over such a run no command and no append touches the directory of a closed attempt |
| `AttemptGuarantees.BeginAdmitted` | scripts/final_attempt_lifecycle.py:95-118 | With nothing pending, begin is admitted if and only if the previous attempt is closed and frozen and the new directory does not exist; its journal name is always free |
| `AttemptAdmission.BeginAdmittedSpelled` | scripts/final_attempt_lifecycle.py:95-118 | The same over the disk, file names and statuses written out, with the journal that a begin prepares |
| `AttemptAdmission.AbandonAdmitted` | scripts/final_attempt_lifecycle.py:296-371 | With nothing pending in a reachable state, an abandon is prepared if and only if the attempt is open, its `f2-failure.json` or `f3-failure.json` is given, there and accepted, and the exports are at hand; otherwise which refusal |
| `AttemptAdmission.ReopenAdmitted` | scripts/final_attempt_lifecycle.py:296-371 | A reopen if and only if the attempt is sealed, its seal file there, its `f1-review.md` or `f4-review.md` given, there and accepted, and the exports at hand; otherwise which refusal |
| `AttemptAdmission.SealAdmitted` | scripts/final_attempt_lifecycle.py:541-635 | A seal if and only if the open attempt is at its HEAD, the output is its own, the directory may be sealed, exports and attestation are at hand and the journal name is free |
| `AttemptAdmission.SealRefused` | scripts/final_attempt_lifecycle.py:541-635 | Otherwise which refusal it is |
| `AttemptAdmission.SealableExactly` | scripts/final_attempt_evidence.py:201-216 | A directory may be sealed if and only if it is flat and holds the seven pre-seal receipts, none of them empty, and besides them child receipts only |
| `AttemptAdmission.ChildReceiptExactly` | scripts/final_attempt_review_contract.py:29-38 | A child receipt is named `f2-static.`, a node of 1 to 64 lower-case letters, digits and dashes that begins with a letter, a dot, 16 hexadecimal digits and `.json` |
| `AttemptAdmission.TerminalJournal` | scripts/final_attempt_lifecycle.py:318-371 | What the journal of an abandon or reopen records of the disk, field by field |
| `AttemptAdmission.SealJournal` | scripts/final_attempt_lifecycle.py:586-635 | What the journal of a seal records of the disk, field by field |
| `AttemptAdmission.BeginResumes` | scripts/final_attempt_lifecycle.py:142-170 | In a reachable state a pending begin goes on if and only if the HEAD is its own and a directory it has made is still empty |
| `AttemptAdmission.TerminalResumes` | scripts/final_attempt_lifecycle.py:374-436 | A pending abandon or reopen goes on if and only if its receipt is given, unchanged and still accepted, and the exports and all files, the marker aside for an abandon, are the recorded ones |
| `AttemptAdmission.SealResumes` | scripts/final_attempt_lifecycle.py:638-702 | A pending seal goes on if and only if HEAD and output are its own, the directory is flat, and exports, attestation and all files, the seal aside, are the recorded ones |
| `AttemptAdmission.ForeignCommandRefused` | scripts/final_attempt_lifecycle.py:95-101 | A command of another kind, or for another plan or round, than the pending journal changes nothing |
| `AttemptAdmission.AbandonedLeaves` | scripts/final_attempt_lifecycle.py:411-538 | The whole disk that a completed abandon leaves: entry, marker file, record with the inventory of the directory, journal |
| `AttemptAdmission.ReopenedLeaves` | scripts/final_attempt_lifecycle.py:411-538 | The whole disk that a completed reopen leaves |
| `AttemptAdmission.SealedLeaves` | scripts/final_attempt_lifecycle.py:703-778 | The whole disk that a completed seal leaves: the seal file field by field, the record with its digest, the journal |
| `AttemptAdmission.OrdinaryAppendSpelled` | scripts/operation_ledger_writer.py:273-330 | When an ordinary append is accepted in a reachable state, with action and status written out; a tip `seal` entry blocks it only when it passed |
| `AttemptAdmission.OrdinaryAppendRefused` | scripts/operation_ledger_writer.py:273-330 | Which refusal it is otherwise, in the order of the checks |
| `AttemptAdmission.LedgerAcceptsSpelled` | scripts/operation_ledger_writer.py:313-315 | When the ledger takes a lifecycle entry: it is admissible and the tip is no passed `seal`; with any other status a tip `seal` entry blocks nothing |
| `AttemptAdmission.AuthoritySpelled` | scripts/final_attempt_authority.py:132-199 | When authority is granted in a reachable state: every journal committed, no passed `seal` entry, and the record open for this attempt and HEAD with no further field |
| `AttemptAdmission.TrustedSpelled` | scripts/operation_ledger_writer.py:605-668 | Which journals the writer trusts: phases, inputs and payload kind by kind, and for a seal the digests of attestation and inventory |
| `AttemptChecks.FoldExactly` | scripts/operation_ledger_writer.py:486-533 | The derivation accepts a ledger if and only if every lifecycle entry passed, each start finds nothing running and is the first of its attempt, and each end closes the running attempt; the active attempt is the running one |
| `AttemptChecks.ChainSpelled` | scripts/operation_ledger_chain.py:22-53 | A decoded chain is accepted if and only if every entry has its number, the digest of the entry before it, and genesis or admissible content |
| `AttemptChecks.GateExactly` | scripts/operation_ledger_writer.py:376-483 | On any disk, reachable or not, when the gate lets an append through |
| `AttemptChecks.AuthorityOnAnyDisk` | scripts/final_attempt_authority.py:132-199 | On any disk, when authority is granted |
| `AttemptChecks.BeginPrepares` | scripts/final_attempt_lifecycle.py:95-118 | On any disk, when a begin is prepared |
| `AttemptChecks.TerminalPrepares` | scripts/final_attempt_lifecycle.py:318-371 | On any disk, when an abandon or reopen is prepared |
| `AttemptAdmission.SealPrepares` | scripts/final_attempt_lifecycle.py:541-635 | On any disk, when a seal is prepared |
| `AttemptChecks.EventInPlaceExactly` | scripts/final_attempt_lifecycle.py:179-213 | The event of a journal is in place if and only if it was appended once, directly behind the recorded tip, or never and that tip is still the last entry |
| `AttemptChecks.BeginChecked` | scripts/final_attempt_lifecycle.py:142-170 | On any disk, when a pending begin goes on: its identity hashes its inputs, and its event is in place |
| `AttemptChecks.TerminalChecked` | scripts/final_attempt_lifecycle.py:374-436 | On any disk, when a pending abandon or reopen goes on |
| `AttemptChecks.SealChecked` | scripts/final_attempt_lifecycle.py:638-702 | On any disk, when a pending seal goes on |
| `AttemptChecks.CommitsExactly` | scripts/final_attempt_lifecycle.py:438-538 | On any disk a transition commits if and only if it is in its last phase and record, marker or seal file, and for a seal the ledger, are what it has written; it then changes its phase alone |
| `AttemptGuarantees.CompletesOrWedges` | scripts/operation_ledger_writer.py:313-315 | A begin, abandon or reopen that prepares its journal completes if and only if its entry is admissible, the tip is no passed `seal` and, for abandon, no marker file is in the way; otherwise no later run ever moves the ledger, the current-attempt record or a journal |
| `AttemptGuarantees.WedgedForGood` | scripts/final_attempt_lifecycle.py:411-423 | A journal whose event the ledger refuses, and an abandon prepared over a marker file, stay pending over every later run of commands, appends and evidence changes |
| `AttemptGuarantees.SealEntryWedges` | scripts/operation_ledger_writer.py:313-315 | From a new root, one admitted ordinary passed `seal` entry and a begin lead to such a journal |
| `AttemptGuarantees.AuthorityExactly` | scripts/final_attempt_authority.py:132-199 | Authority is granted in exactly the reachable states where nothing is pending, begin for this attempt and HEAD is committed, the attempt is active and not sealed, and the ledger holds no ordinary passed `seal` |
| `AttemptGuarantees.LifecycleAlternates` | scripts/operation_ledger_writer.py:486-533 | In an accepted ledger consecutive lifecycle entries alternate: a start, then the end of that same attempt |
| `AttemptGuarantees.AttemptStartsOnce` | scripts/operation_ledger_writer.py:486-533 | No attempt id is started twice in an accepted ledger |
| `AttemptInvariant.LifecycleEventOnce` | scripts/final_attempt_io.py:438-448 | Two entries of a verified ledger with one lifecycle event are one entry, because that event hashes the tip before it |
| `OperationsLedger.ActiveAttempt` | scripts/operation_ledger_writer.py:486-533 | The loop that derives the active attempt computes the fold over all entries, early exits included |
| `EvidenceRoot.Root.JournalCandidates` | scripts/final_attempt_state.py:142-193 | The loop over journal files finds the one nonterminal journal, none, or the error |
| `EvidenceRoot.Root.PendingLifecycleJournal` | scripts/operation_ledger_writer.py:536-602 | The writer's own loop over the journals, with its early exits and its stricter envelope, finds the one nonterminal journal, none, or the error |
| `EvidenceRoot.Root.RejectExternalSeal` | scripts/operation_ledger_writer.py:376-483 | The gate before every append, with its loops over entries and journals, answers as the pure gate does |
| `EvidenceRoot.Root.CheckAppend` | scripts/operation_ledger_writer.py:273-330 | Every condition of an append, and the entry it would write |
| `EvidenceRoot.Root.AppendOperation` | scripts/operation_ledger_writer.py:194-219 | An ordinary append in place: one entry more, or nothing, with the invariant kept |
| `EvidenceRoot.Root.ResumeBegin` | scripts/final_attempt_lifecycle.py:142-237 | The phase-by-phase code of begin, stopped after any number of writes, leaves the disk of the step model |
| `EvidenceRoot.Root.ResumeTerminal` | scripts/final_attempt_lifecycle.py:374-538 | The same for abandon and reopen |
| `EvidenceRoot.Root.ResumeSeal` | scripts/final_attempt_lifecycle.py:638-778 | The same for seal |
| `EvidenceRoot.Root.Perform` | scripts/final_attempt_lifecycle.py:296-371 | One whole command in place equals the model's run from the old disk and keeps the invariant wherever it is stopped |
| `EvidenceRoot.Root.BeginFinalAttempt` | scripts/final_attempt_lifecycle.py:77-139 | The command equals the model's run; with writes enough, a begin that prepares leaves exactly its entry, an empty directory, the open record and a committed journal if the ledger accepts the entry, and its prepared journal alone otherwise |
| `EvidenceRoot.Root.AbandonFinalAttempt` | scripts/final_attempt_lifecycle.py:240-265 | The command equals the model's run; with writes enough, an abandon that prepares closes the attempt over its marker exactly when the ledger accepts its entry and no marker was there, and else leaves its prepared journal alone |
| `EvidenceRoot.Root.SealAttempt` | scripts/final_attempt_lifecycle.py:541-635 | The command equals the model's run; with writes enough, a seal that prepares always ends on the sealed disk |
| `EvidenceRoot.Root.ReopenSeal` | scripts/final_attempt_lifecycle.py:268-293 | The command equals the model's run; with writes enough, a reopen that prepares closes the sealed attempt exactly when the ledger accepts its entry |
| `EvidenceInventory.InventoryDirectory` | scripts/final_attempt_evidence.py:113-186 | The recursive descent appends to the shared list exactly the listing of the directory, and fails exactly when that does |
| `EvidenceInventory.TakeInventory` | scripts/final_attempt_evidence.py:72-99 | The inventory is the listing sorted by path |
| `EvidenceInventory.ListingSucceeds` | scripts/final_attempt_evidence.py:140-141 | A listing fails exactly when a link or special entry stands at some depth |
| `EvidenceInventory.InventoryExactly` | scripts/final_attempt_evidence.py:72-186 | An inventory lists exactly the files that are not excluded, with path, digest and size, sorted, each path once |
| `EvidenceInventory.InventoryDeterminesFiles` | scripts/final_attempt_evidence.py:189-198 | Two directories have equal inventories if and only if they hold the same files at every path not excluded; otherwise two byte strings of one length with one digest are handed back |
| `EvidenceInventory.InventoryIsTrusted` | scripts/operation_ledger_writer.py:66-98 | Every inventory that is taken passes the writer's own test of inventories: relative paths that never climb, in strict order, digests, sizes, and the digest of the list |
| `InventoryRules.TrustedExactly` | scripts/operation_ledger_writer.py:66-98 | The writer trusts a record if and only if it lists items with relative paths that never climb, digests and sizes, in strictly ascending order of the paths, under the digest of that list |
| `EvidenceInventory.DigestBindsFiles` | scripts/operation_ledger_writer.py:66-98 | Two inventories that pass that test with one digest list the same files, or two byte strings with one digest are handed back |
| `EvidenceInventory.EmptyDirectoryUnseen` | scripts/final_attempt_evidence.py:121-139 | An empty directory does not show in an inventory, so a comparison with one does not notice it |
| `EvidenceInventory.PathTextInjective` | scripts/final_attempt_evidence.py:121-122 | Relative path texts name one path each |
| `Sorting.SortedUnique` | scripts/final_attempt_evidence.py:98-98 | With distinct paths there is only one sorted order of a listing |
| `Utf8.DecodeEncode` | scripts/operation_ledger_format.py:72-77 | Decoding UTF-8 undoes encoding, for every string |
| `Utf8.DecodeExactly` | scripts/operation_ledger_format.py:72-77 | Bytes decode to a string if and only if they are its encoding, so no overlong form and no surrogate decodes |
| `Utf8.AsciiOnlyItself` | scripts/operation_ledger_format.py:72-77 | An ASCII byte occurs in the encoding exactly where its character occurs in the string |
| `CanonicalJson.SortedKeys` | scripts/operation_ledger_format.py:75-77 | The keys of an object in strict code-point order, each once |
| `JsonRoundTrip.TextParses` | scripts/operation_ledger_format.py:72-77 | Reading the canonical text of any value, in front of anything that may follow it, gives back exactly that value (RFC 8259, sections 2 to 7) |
| `JsonRoundTrip.ItemsParse` | scripts/operation_ledger_format.py:88-90 | The same for the items of an array |
| `JsonRoundTrip.MembersParse` | scripts/operation_ledger_format.py:91-95 | The same for the members of an object |
| `JsonRoundTrip.EscapedBody` | scripts/operation_ledger_format.py:75-77 | Reading an escaped string gives back the string |
| `JsonRoundTrip.IntParses` | scripts/operation_ledger_format.py:75-77 | Reading a written integer gives back the integer |
| `CanonicalText.PlainString` | scripts/operation_ledger_format.py:72-77 | A string of characters from U+0020 on, without quote and backslash, is written as itself between quotes, solidus and non-ASCII characters included |
| `CanonicalText.NamedEscapes` | scripts/operation_ledger_format.py:72-77 | The seven characters with an escape of their own |
| `CanonicalText.ControlEscape` | scripts/operation_ledger_format.py:72-77 | Every other control character is written as its code in four lower-case hexadecimal digits |
| `CanonicalText.NumberText` | scripts/operation_ledger_format.py:72-77 | An integer is written as its decimal digits, one for each power of ten and none in front, behind a minus when it is negative |
| `CanonicalText.ArrayText` | scripts/operation_ledger_format.py:72-77 | Items stand between brackets with exactly one comma between two |
| `CanonicalText.ObjectText` | scripts/operation_ledger_format.py:72-77 | Members stand between braces, quoted key, colon and value, with one comma between two and the keys in ascending order of their character codes |
| `CanonicalText.BeforeIsCodeOrder` | scripts/operation_ledger_format.py:75-77 | The order of keys is that of the first character code in which they differ, a proper prefix first |
| `CanonicalText.LineSpelled` | scripts/operation_ledger_format.py:72-77 | A canonical line is the bytes of the text and one byte 0x0A; a value with a real number has none |
| `CanonicalText.RealExactly` | scripts/operation_ledger_format.py:80-95 | A value has no line if and only if some path in it leads to a real number |
| `CanonicalText.CharacterBytes` | scripts/operation_ledger_format.py:72-77 | The bytes of a character: as few as it needs, leading bits and payload (section 3 of RFC 3629) |
| `LedgerLines.CanonicalLineInjective` | scripts/operation_ledger_format.py:72-77 | Different values have different canonical lines |
| `LedgerLines.CanonicalIsLine` | scripts/operation_ledger_format.py:72-77 | A canonical line holds one line feed, at its end, and no carriage return |
| `LedgerLines.DecodeLineExactly` | scripts/operation_ledger_chain.py:56-65 | Decoding a line gives a value if and only if the value is an object and the line is its canonical line |
| `LedgerLines.ConcatSplit` | scripts/operation_ledger_chain.py:73-73 | Splitting any bytes into lines loses nothing |
| `LedgerLines.SplitConcat` | scripts/operation_ledger_chain.py:73-73 | Concatenated lines split back into themselves |
| `LedgerChain.VerifyBytes` | scripts/operation_ledger_chain.py:68-81 | The verification loop computes the recursive verification of all lines |
| `LedgerChain.VerifiedExactly` | scripts/operation_ledger_chain.py:68-81 | Verification accepts exactly the files that are the canonical lines of a valid chain, each as its own entries |
| `LedgerRules.EntryExactly` | scripts/operation_ledger_chain.py:22-53 | An entry is accepted if and only if it has the nine keys, its number, its link, a timestamp, three identifiers and a digest of the right shape position by position, the digest of its other fields, and accepted arguments |
| `LedgerRules.FileExactly` | scripts/operation_ledger_chain.py:68-81 | Verification accepts exactly the bytes of entries numbered from zero, each naming the stored digest of the one before it |
| `LedgerRules.StampExactly` | scripts/operation_ledger_format.py:38-38 | The shape of a timestamp, position by position |
| `LedgerRules.NameExactly` | scripts/operation_ledger_format.py:39-39 | The shape of an identifier, position by position |
| `LedgerChain.EntriesAgree` | scripts/operation_ledger_chain.py:22-53 | Two valid entries with one digest are the same entry at the same place, or their hashed lines collide |
| `LedgerChain.TipDeterminesHistory` | scripts/operation_ledger_chain.py:22-81 | Two files that verify and end in one digest are equal byte for byte, or the lemma hands back two different byte strings with one digest |
| `LedgerChain.DigestsDistinct` | scripts/operation_ledger_chain.py:68-81 | No digest occurs twice in a verified file, short of a collision |
| `LedgerChain.AppendVerifies` | scripts/operation_ledger_writer.py:318-345 | A valid next entry written behind a verified file verifies as the old entries and that one |
| `LedgerChain.GenesisVerifies` | scripts/operation_ledger_genesis.py:58-72 | A new ledger verifies if and only if its facts, its timestamp and its digest are in order |
| `LedgerChain.SchemaVersionMayBeTrue` | scripts/operation_ledger_chain.py:25-26 | The version is compared with `!=`, so with the digest recomputed any valid entry stays valid when `true` stands for version 1 |
| `LedgerFile.File.WriteAll` | scripts/operation_ledger_fs.py:188-194 | The write loop leaves a prefix of the payload behind the old bytes, all of it when it ends normally, for every way the device may split or fail the writes; and how each such way ends |
| `LedgerFile.File.RecoverTornSuffix` | scripts/operation_ledger_writer.py:165-174 | Repair truncates to the last line feed when the prefix verifies, and otherwise changes nothing |
| `LedgerFile.RecoveredExactly` | scripts/operation_ledger_writer.py:165-174 | What repair leaves: the whole file when its last byte is 0x0A, and otherwise everything up to the last such byte, if there is one and that much verifies |
| `LedgerFile.File.Append` | scripts/operation_ledger_writer.py:273-371 | Whatever fails, the file ends as the repaired old bytes and a prefix of the planned line: none, all, or some only when the process died or could not truncate; how it ends is a function of the faults: before the first byte nothing is written, behind a complete line some errors leave it and others take it back |
| `LedgerFile.File.Commit` | scripts/operation_ledger_writer.py:336-371 | The write with its rollbacks: each exit's exact bytes |
| `LedgerFile.TornLineRecovers` | scripts/operation_ledger_writer.py:165-174 | For every cut of the written line the next append finds the old file, or the old file and exactly that line when the line is complete |
| `LedgerFile.TornLineIsRefused` | scripts/final_attempt_io.py:451-461 | A reader that does not repair refuses every file with a line cut short |
| `LedgerFile.AppendIsAtomic` | scripts/operation_ledger_writer.py:301-371 | Every exit of an append leaves a file whose recovered history is the old one or the old one and the planned entry; a normal return is the latter and verifies |
| `LedgerFile.RunsOnlyAppend` | scripts/operation_ledger_writer.py:301-371 | Over any run of appends, however each ended, the recovered history only grows at its end: it holds every returned entry, gains only entries planned in the run, at least as many as completed and at most as many as completed or died |
| `LedgerFile.EntryRecordsRequest` | scripts/operation_ledger_writer.py:318-330 | A new entry records the caller's operation, its number, time and predecessor, and its own digest |
| `LedgerBridge.VerifiedIsChain` | scripts/operation_ledger_chain.py:22-81 | The entries of a file that verifies as bytes, stored sequence numbers included, are a valid chain of the lifecycle's ledger |
| `LedgerBridge.SequencesAgree` | scripts/operation_ledger_chain.py:27-31 | In a verified file the stored sequence number of an entry is its place, as the lifecycle numbers it |
| `LedgerBridge.LinksAgree` | scripts/operation_ledger_chain.py:27-31 | In a verified file an entry stores the digest of another exactly when it links to it in the lifecycle's ledger; otherwise two byte strings with one digest are handed back |
| `LedgerBridge.FoldsAgree` | scripts/operation_ledger_writer.py:486-533 | The active attempt derived from the stored JSON entries, argument schemas included, is the one derived from the lifecycle's events |
| `LedgerBridge.FileAlternates` | scripts/operation_ledger_writer.py:486-533 | In a stored ledger whose derivation succeeds consecutive lifecycle entries alternate: a start, then the end of the same attempt id |
| `LedgerBridge.FileStartsOnce` | scripts/operation_ledger_writer.py:486-533 | In such a ledger no attempt id is started twice |
| `LedgerRefinement.PlansExactly` | scripts/operation_ledger_writer.py:273-345 | Over a root whose ledger the file holds, a line is planned if and only if its arguments are safe, the next entry is well formed, the expected tip is the tip and the lifecycle's append succeeds; the lifecycle then has the ledger that the file holds |
| `LedgerRefinement.OrdinaryPlansExactly` | scripts/operation_ledger_writer.py:376-483 | In every reachable state an ordinary line is planned if and only if, besides that, its action is not a lifecycle action, nothing is pending, no attempt is sealed and the tip is no passed `seal` |
| `LedgerRefinement.PrivatePlansExactly` | scripts/operation_ledger_writer.py:251-270 | The written event of a prepared begin, abandon or reopen is planned if and only if its arguments are safe and the lifecycle's ledger accepts it, and the file then holds the ledger with that event |
| `LedgerRefinement.PreparedPlansExactly` | scripts/operation_ledger_writer.py:690-746 | The same from the command that prepares the journal on a quiet root |
| `LedgerRefinement.PrivateEvent` | scripts/operation_ledger_writer.py:690-746 | The arguments written for a prepared journal are read back as exactly its event |
| `LedgerRefinement.WellFormedExactly` | scripts/operation_ledger_writer.py:318-331 | What makes the next entry valid: arguments without floats and safe, identifiers and a timestamp of the right shape |
| `LedgerRefinement.ExitCouples` | scripts/operation_ledger_writer.py:336-371 | However an append of bytes ends, the file holds the root's ledger or the one the lifecycle's append gives, and the latter after every return |
| `LedgerRefinement.GenesisCouples` | scripts/operation_ledger_genesis.py:58-72 | A new ledger file holds the ledger of a new root |
| `MigrationGraph.CycleSearch.Search` | scripts/check_project_facts.py:222-231 | The nested search ends; over the sets shared by all roots a positive answer means a cycle, a negative one leaves everything visited closed under parents and free of cycles |
| `MigrationGraph.FindsCycle` | scripts/check_project_facts.py:233-234 | Over all roots the search reports a cycle if and only if the graph has one |
| `MigrationGraph.ReachableFrom` | scripts/check_project_facts.py:235-241 | The stack loop collects exactly the head and what it reaches |
| `MigrationGraph.LoadGraph` | scripts/check_project_facts.py:203-208 | The graph of distinct revisions, or the first revision met twice |
| `MigrationGraph.EveryRevisionReachable` | scripts/check_project_facts.py:242-243 | With known parents, one head and no cycle every revision is reachable from the head |
| `MigrationGraph.HeadlessIsCyclic` | scripts/check_project_facts.py:214-218 | A graph without a head has a cycle, so the error that reports no head always hides one |
| `MigrationGraph.DeriveMigrationHead` | scripts/check_project_facts.py:202-244 | A head is derived if and only if revisions are distinct, parents known, the graph acyclic and one revision is no one's parent; each other outcome is the first failed condition, and the error for disconnected revisions never occurs |
| `SchedulerLeadership.RunInv` | backend/app/scheduler.py:49-171 | Over every interleaving of processes, dying sessions and failing statements, the lock, the connections and the trace of events agree |
| `SchedulerLeadership.FencesHandOver` | backend/app/scheduler.py:99-138 | Between two health checks won in different sessions the first session gave the lock up and the second took it afterwards |
| `SchedulerLeadership.BodiesAreFenced` | backend/app/scheduler.py:253-261 | Every job body starts behind a health check made for that call of that process at an instant when one of its sessions held the lock; no check serves two bodies |
| `SchedulerLeadership.OneLeader` | backend/app/scheduler.py:99-138 | At no time would two processes both pass a health check |
| `SchedulerLeadership.OneUnlockFrees` | backend/app/scheduler.py:148-164 | No session ever has the lock twice, so one unlock that reaches the server frees it |
| `SchedulerLeadership.AcquireExactly` | backend/app/scheduler.py:49-89 | A process without a session gets the lock if and only if it is free and no error strikes; an attempt that fails leaves the lock as it was once its connection is closed |
| `SchedulerLeadership.HealthExactly` | backend/app/scheduler.py:99-138 | A health check clears its call if and only if no error strikes and the process's own session holds the lock, and otherwise gives the connection up; a cleared call starts its body once |
| `SchedulerLeadership.ReleaseExactly` | backend/app/scheduler.py:148-171 | Giving up frees the lock when the unlock reaches the server and in any case when the session ends |
| `SchedulerLeadership.UnlockUndoesLock` | backend/app/scheduler.py:49-89 | An unlock undoes the lock before it, and only a lock that another session has is refused |
| `SchedulerLeadership.EndedSessionCloses` | backend/app/scheduler.py:49-171 | When the server has ended the session that a call works on, the next step of that call closes the connection and touches nothing else |
| `SchedulerLeadership.DeathExactly` | backend/app/scheduler.py:148-171 | A process that dies forgets its session and its cleared calls; its lock is free once the server ends the session |
| `SchedulerLeadership.LockedOnce` | backend/app/scheduler.py:49-89 | In no run does a session take the lock twice |
| `SchedulerLeadership.BodyUnderLockExactly` | backend/app/scheduler.py:253-261 | In every run, the session whose health check let a body start still holds the lock at that start if and only if it has not lost or released it since the check |
| `SchedulerLeadership.BodyAfterLoss` | backend/app/scheduler_runtime.py:59-64 | The condition can fail: a run in which a body starts after its process lost the lock to another |
| `TriggerReconciliation.PassAgrees` | backend/app/scheduler_runtime.py:106-147 | After a pass no trigger job is left for anything but a schedulable trigger, each schedulable trigger has a job with its current fingerprint exactly when it had one or could be registered, other jobs are untouched, and a status only moves from active to completed |
| `TriggerReconciliation.PassSpelled` | backend/app/scheduler_runtime.py:98-147 | What a pass leaves for one trigger in its own fields: active, below its run limit and before its end, it keeps its status and has its own job, a new one if that can be registered, or whatever was there; otherwise no job is left and an active status becomes completed |
| `TriggerReconciliation.JobsSpelled` | backend/app/scheduler_runtime.py:106-127 | Every job left under `trigger_` belongs to a trigger that may run, and every other job is as before |
| `TriggerReconciliation.PassFailsSpelled` | backend/app/scheduler.py:264-325 | A pass fails if and only if a trigger that may run lacks its job and has a schedule that raises |
| `TriggerReconciliation.PassIdempotent` | backend/app/scheduler_runtime.py:106-147 | A second pass at the same time succeeds and changes neither jobs nor triggers |
| `TriggerReconciliation.PassFailsExactly` | backend/app/scheduler.py:264-325 | A pass fails if and only if some schedulable trigger without an up-to-date job cannot be registered |
| `TriggerReconciliation.OutdatedJobExactly` | backend/app/scheduler.py:302-306 | A schedulable trigger is left with a job that is not up to date if and only if it had one and its schedule can no longer be registered; the job is then the old one |
| `TriggerReconciliation.VisitsSettle` | backend/app/scheduler_runtime.py:128-145 | Visits to triggers with distinct ids do not disturb one another |
| `SchedulerNode.Node.Reconcile` | backend/app/scheduler_runtime.py:106-147 | The pass in place equals the pure pass; without its commit no trigger changes; what it leaves for each trigger is `TriggerReconciliation.PassSpelled` |
| `SchedulerNode.Node.Activate` | backend/app/scheduler_runtime.py:150-173 | A scheduler that is started lets no job run before every job has been rebuilt; one that runs already keeps running; which jobs each failure leaves |
| `SchedulerNode.Node.ActivateWithRecovery` | backend/app/scheduler_runtime.py:176-186 | A database failure on the way stops the scheduler and gives leadership up |
| `SchedulerNode.Node.Maintain` | backend/app/scheduler_runtime.py:189-205 | A round that reports leadership leaves a leader whose jobs run, one that does not leaves neither, and one that ends in an exception starts nothing that was not running; and which of the three it is |
| `PlaywrightStack.WalkSuites` | scripts/e2e_runner_playwright.py:128-226 | The explicit-stack walk ends and does exactly what the recursive traversal does, errors included; it succeeds if and only if the receipt keeps its rules, stated over its own fields, and then reports exactly the nodes of its tests and the outcomes of those that fail unexpectedly |
| `PlaywrightRules.AcceptedExactly` | scripts/e2e_runner_playwright.py:43-55 | The tally is within the rules if and only if suites and specs have their shapes to depth 32, at most 1024 suites, 1 to 1024 well-formed tests, 512 results and 16 outcomes are there, and no node is there twice |
| `PlaywrightRules.TallyExactly` | scripts/e2e_runner_playwright.py:128-150 | A receipt is read if and only if its shapes are in order and every test in it is well formed, and it then counts each suite and each test once |
| `PlaywrightRules.LeafExactly` | scripts/e2e_runner_playwright.py:147-218 | When a test is well formed and what it amounts to, in the fields of the receipt: the five statuses, project, file and title, and an outcome exactly for an unexpected `failed`, `timedOut` or `interrupted` |
| `PlaywrightStack.ReportExactly` | scripts/e2e_runner_playwright.py:220-226 | The report lists the nodes of skipped and of other tests, and the outcomes of unexpected failures, and no others |
| `PlaywrightStack.OrderSpelled` | scripts/e2e_runner_playwright.py:222-225 | Nodes and outcomes are ordered field by field, and fields by character codes |
| `PlaywrightFaults.TestFaultExactly` | scripts/e2e_runner_playwright.py:147-218 | Reading a test fails with the error of the first rule that it breaks, in the order of the code |
| `PlaywrightFaults.SuiteFaultExactly` | scripts/e2e_runner_playwright.py:133-146 | The same for a suite |
| `PlaywrightStack.PopWalks` | scripts/e2e_runner_playwright.py:133-219 | One turn of the stack loop is one turn of the recursion |
| `PlaywrightStack.ReportAccounts` | scripts/e2e_runner_playwright.py:220-226 | Reported nodes account for every test once: selected and skipped ones are disjoint, together as many as the tests, and every unexpected outcome belongs to a selected node |
| `PlaywrightStack.SortNodes` | scripts/e2e_runner_playwright.py:222-225 | Sorted, and the same nodes |
| `PlaywrightNodeIds.IdNamesOneNodeExactly` | scripts/e2e_runner_playwright.py:31-33 | A printed node id names one node if and only if there is one way only to cut it at two places that read `::` |
| `PlaywrightNodeIds.ColonFreeIdsDiffer` | scripts/e2e_runner_playwright.py:31-33 | Nodes whose project and spec hold no colon have different ids |
| `PlaywrightNodeIds.OutcomesNameOneNode` | scripts/e2e_runner_playwright.py:202-226 | In the report of a receipt with such nodes only, every unexpected outcome names exactly one reported node, a selected one |
| `PlaywrightNodeIds.TwoNodesAccepted` | scripts/e2e_runner_playwright.py:128-219 | Any two different nodes within the limits can stand in one accepted receipt |
| `PlaywrightNodeIds.NodeIdsCollide` | scripts/e2e_runner_playwright.py:31-33 | One accepted receipt holds two selected nodes with one printed id |
| `PlaywrightWalk.ForestTracks` | scripts/e2e_runner_playwright.py:128-219 | The traversal from any state succeeds exactly on well-formed suites that keep the rules, and then adds exactly their tally |
| `PlaywrightWalk.TestTracks` | scripts/e2e_runner_playwright.py:147-218 | One test is accepted exactly when it is well formed and the running totals stay within the rules |
| `PlaywrightWalk.LeafMeans` | scripts/e2e_runner_playwright.py:154-204 | What a test counts as, in terms of the receipt's fields: when skipped, when unexpected, with which status |
| `PlaywrightReceipt.VisitSuite` | scripts/e2e_runner_playwright.py:135-216 | Each suite visited adds exactly one to the suite count, within its limit |
| `PlanHistory.ValidateHistory` | scripts/plan_history_contract.py:322-374 | The loop computes the fold over the commits, errors included |
| `PlanHistory.AcceptedExactly` | scripts/plan_history_contract.py:256-359 | When a single commit is accepted and as what, over the pinned exceptions, the trailers and the ledger's receipts |
| `PlanRules.PrimarySpelled` | scripts/plan_history_contract.py:322-341 | A commit counts as a plan item if and only if no exception is for it, `Plan-Item: ` and two digits is its only plan trailer, and an entry passed, about this commit, of a commit action, with the item's number in its task |
| `PlanRules.FixSpelled` | scripts/plan_history_contract.py:322-359 | A commit counts as a fix if and only if no exception is for it, `Plan-Fix: ` and an item of the plan is its only plan trailer, and a receipt records the one digest that the message invalidates |
| `PlanRules.LegacySpelled` | scripts/plan_history_contract.py:299-319 | A commit under an exception counts as its repair if and only if parent, tree, message and trailer are the recorded ones, every binding finds its digest at its place, and an entry is about the commit |
| `PlanRules.RefusedSpelled` | scripts/plan_history_contract.py:330-359 | Why an ordinary commit with one plan trailer is refused |
| `PlanRules.ReceiptSpelled` | scripts/plan_history_contract.py:256-296 | Which entries are receipts of a commit and of an owner, field by field |
| `PlanHistory.ValidatedExactly` | scripts/plan_history_contract.py:322-374 | A history is accepted if and only if every commit by itself is and the primaries in commit order are the contract's sequence; primaries and repairs together are as many as the commits |
| `PlanHistory.EveryCommitExactly` | scripts/plan_history_contract.py:322-374 | A history gets past its commits if and only if each of them is accepted by itself |
| `PlanHistory.ReportExactly` | scripts/plan_history_contract.py:369-380 | The report of accepted commits, which stands if and only if their plan items are the plan's in order |
| `PlanHistory.HistoryStays` | scripts/plan_history_contract.py:322-374 | A history accepted against a ledger stays accepted, with the same report, against every extension of that ledger |
| `PlanHistory.AcceptedForGood` | scripts/plan_history_contract.py:322-374 | No run of ledger appends, with whatever failures and deaths, takes an accepted history's report away |
| `Strings.SplitJoins` | scripts/plan_history_contract.py:290-291 | Splitting at a separator and joining again gives the string back, and no piece holds the separator |
| `Strings.JoinSplits` | scripts/final_attempt_evidence.py:121-122 | Joined pieces without the separator split back into themselves |
| `Strings.PieceExactly` | scripts/plan_history_contract.py:290-291 | The pieces of a split string are the words without the separator that stand between separators or ends |
| `PlanHistory.TrailerFound` | scripts/plan_history_contract.py:21-24 | A trailer's value is found exactly when a whole line of the message is that trailer |

## Left out

- Digest in the lifecycle modules is a free constructor over the hashed document, so equal digests mean equal documents; the byte modules make no such assumption. `LedgerBridge` relates the two by a reading of stored texts as digests, one to one where attempts are told apart; that the stored digest texts are computed from the documents they stand for is not stated there.
- Clocks: the timestamp of a lifecycle entry is a function of its sequence number, so a run and its recovery give equal ledgers where the code's may differ in that one field.
- File identity, ownership, modes, links, descriptors, path re-binding and `flock`: the file system is trusted and the writer lock is mutual exclusion.
- Durability order (`fsync`) and power loss that leaves `.tmp-` files: a stopped command leaves each JSON file old or new.
- The lifecycle's own append is atomic in the lifecycle modules; torn lines are modelled for the byte-level append.
- Receipts, exports, the prerequisite attestation and the plan contract's checks are functions of the evidence files, the captures and the arguments; their contents are not modelled.
- The content rules for ledger arguments and genesis facts are one predicate (`admissible` in the lifecycle modules, `safe` and `genesis` in the byte modules); an append tests it in the same place, but its separate error texts are one.
- The attempt directory's path is a function of the attempt id and is left out of journals and the current-attempt record; the exact key sets of those JSON objects are the shapes of datatypes.
- Inventories in the lifecycle modules map paths to digests, without sizes; nested directories there are paths with a slash.
- File size limits (16 and 20 MiB, 16384 bytes of arguments), and the file creation around `write_genesis`.
- LedgerFile.File.Append: takes the lifecycle gate and the private revalidation as parameters; the gate is filled in by `LedgerRefinement.PlansExactly`, and what the lifecycle revalidates is in the lifecycle modules.
- EvidenceRoot.Root.RejectExternalSeal: of the writer's tests on values only those that digests decide are made here, since digests, heads and paths have their shape by type; path and digest texts are tested in `EvidenceInventory.InventoryIsTrusted`.
- Python's limits on integer digits and nesting depth, and JSON files in UTF-16 or with a byte order mark, which no canonical line can be; a lone surrogate is refused by the reader here and by the writer there.
- Reading Alembic metadata out of Python sources (`_literal_revision`).
- SchedulerLeadership.OneUnlockFrees: every connection opens a new session; the connection pool of backend/app/database.py, which may hand a session out again, is not modelled, and `SchedulerLeadership.LockedOnce` rests on that too.
- SchedulerLeadership.RunInv: any process may begin any operation at any time its guard is free, which covers the code's own order of calls; liveness is not claimed. Non-PostgreSQL engines, where every process leads, are left out.
- Job contents, APScheduler's own timing and job removal, and the bodies of maintenance jobs: `TriggerReconciliation` treats registering a schedule as a function of the schedule.
- Failure locations, network codes and failure phases are one detail string, so an ordering error between outcomes that agree in node id and status but not in the presence of a location is not modelled.
- `load_contract`, reading Git, plan-identity validation, Docker, Playwright and PostgreSQL runners, proxies, coverage arithmetic, documentation links, the application's HTTP code and the frontend: input and output, or plain parsing.
