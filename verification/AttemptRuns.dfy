/** Whole runs: crashes, retries, other commands, ordinary appends and evidence changes in between. */
module AttemptRuns {
  import opened Wrappers
  import opened AttemptModel
  import opened OperationsLedger
  import opened AttemptTransitions
  import opened AttemptInvariant
  import opened AttemptSafety
  import opened AttemptSteps
  import opened AttemptRecovery

  // ---- One invocation, as the code runs it: validate once, then write

  function Invoke(env: Environment, cmd: Command, d: Disk, budget: nat): RunResult {
    if env.contract.plan != cmd.plan || env.contract.round != cmd.round
      then RunResult(d, Refused(PlanIdentityDisagrees))
    else
      match Candidate(d.journals)
      case Failure(why) => RunResult(d, Refused(why))
      case Success(Some(key)) =>
        if d.journals[key].kind != CommandKind(cmd) then RunResult(d, Refused(AnotherTransitionNonterminal))
        else Enter(env, cmd, d, d.journals[key], key, budget)
      case Success(None) =>
        match Prepare(env, cmd, d)
        case Failure(why) => RunResult(d, Refused(why))
        case Success(j) =>
          if budget == 0 then RunResult(d, Interrupted)
          else Enter(env, cmd, PutJournal(d, j), j, KeyOf(j), budget - 1)
  }

  /** The one validation of a run. */
  function Enter(env: Environment, cmd: Command, d: Disk, j: Journal, key: JournalKey, budget: nat): RunResult
    requires WellShaped(j) && j.kind == CommandKind(cmd)
  {
    if !PlanMatches(j.inputs, cmd) then RunResult(d, Refused(JournalOfAnotherPlan))
    else
      match RefusalOf(env, cmd, d, j, key)
      case Some(why) => RunResult(d, Refused(why))
      case None => Continue(env, d, key, budget)
  }

  /** The writes that follow, phase after phase, with no further validation. */
  function Continue(env: Environment, d: Disk, key: JournalKey, budget: nat): RunResult
    decreases budget
  {
    if key !in d.journals || !WellShaped(d.journals[key]) || (d.journals[key].kind != Begin
      && !AttemptInHand(d, d.journals[key]))
    then RunResult(d, Refused(JournalImpossible))
    else
      match WriteOf(env, d, d.journals[key])
      case Refuse(why) => RunResult(d, Refused(why))
      case Write(next) => if budget == 0 then RunResult(d, Interrupted) else Continue(env, next, key, budget - 1)
      case Commit(next, result) => if budget == 0 then RunResult(d, Interrupted) else RunResult(next, Completed(result))
  }

  lemma StepResumes(env: Environment, cmd: Command, d: Disk, j: Journal)
    requires Inv(env, d) && IsPending(d, j) && j.kind == CommandKind(cmd)
    requires env.contract.plan == cmd.plan && env.contract.round == cmd.round && PlanMatches(j.inputs, cmd)
    ensures Step(env, cmd, d) == Resume(env, cmd, d, j, KeyOf(j))
  {
    CandidateIs(d.journals, KeyOf(j));
  }

  lemma RunStep(env: Environment, cmd: Command, d: Disk, r: StepResult, budget: nat)
    requires Step(env, cmd, d) == r
    ensures Run(env, cmd, d, budget) == match r
      case Refuse(why) => RunResult(d, Refused(why))
      case Write(next) => if budget == 0 then RunResult(d, Interrupted) else Run(env, cmd, next, budget - 1)
      case Commit(next, result) => if budget == 0 then RunResult(d, Interrupted) else RunResult(next, Completed(result))
  {
  }

  /** The journal on disk is the one in hand, and its writes are defined. */
  predicate InHand(d: Disk, j: Journal) {
    WellShaped(j) && KeyOf(j) in d.journals && d.journals[KeyOf(j)] == j && (j.kind != Begin ==> AttemptInHand(d, j))
  }

  lemma ContinueStep(env: Environment, d: Disk, j: Journal, r: StepResult, budget: nat)
    requires InHand(d, j) && WriteOf(env, d, j) == r
    ensures Continue(env, d, KeyOf(j), budget) == match r
      case Refuse(why) => RunResult(d, Refused(why))
      case Write(next) => if budget == 0 then RunResult(d, Interrupted) else Continue(env, next, KeyOf(j), budget - 1)
      case Commit(next, result) => if budget == 0 then RunResult(d, Interrupted) else RunResult(next, Completed(result))
  {
  }

  /** Validating before every write would never stop a run that passed its one validation. */
  lemma {:induction false} ContinueIsRun(env: Environment, cmd: Command, d: Disk, j: Journal, budget: nat)
    requires Inv(env, d) && IsPending(d, j) && j.kind == CommandKind(cmd)
    requires env.contract.plan == cmd.plan && env.contract.round == cmd.round && PlanMatches(j.inputs, cmd)
    requires RefusalOf(env, cmd, d, j, KeyOf(j)).None?
    ensures Continue(env, d, KeyOf(j), budget) == Run(env, cmd, d, budget)
    decreases budget, 1
  {
    StepResumes(env, cmd, d, j);
    var r := WriteOf(env, d, j);
    RunStep(env, cmd, d, r, budget);
    ContinueStep(env, d, j, r, budget);
    if r.Write? && budget > 0 {
      WriteSafe(env, d, j);
      WriteStaysValid(env, cmd, d, j);
      ContinueNext(env, cmd, r, KeyOf(j), j.inputs, budget);
    }
  }

  lemma {:induction false} ContinueNext(env: Environment, cmd: Command, r: StepResult, key: JournalKey, inputs: Inputs,
      budget: nat)
    requires r.Write? && Inv(env, r.next) && StillValid(env, cmd, r, key, inputs) && budget > 0
    requires env.contract.plan == cmd.plan && env.contract.round == cmd.round && PlanMatches(inputs, cmd)
    ensures Continue(env, r.next, key, budget - 1) == Run(env, cmd, r.next, budget - 1)
    decreases budget, 0
  {
    hide Inv, Step;
    ContinueIsRun(env, cmd, r.next, r.next.journals[key], budget - 1);
  }

  lemma PreparedResumes(env: Environment, cmd: Command, d: Disk, budget: nat)
    requires Inv(env, d) && PendingKeys(d.journals) == {} && Prepare(env, cmd, d).Success?
    requires env.contract.plan == cmd.plan && env.contract.round == cmd.round
    ensures var j := Prepare(env, cmd, d).value;
            Enter(env, cmd, PutJournal(d, j), j, KeyOf(j), budget) == Run(env, cmd, PutJournal(d, j), budget)
  {
    var j := Prepare(env, cmd, d).value;
    PrepareKeepsInv(env, cmd, d);
    PrepareTies(env, cmd, d);
    WriteJournals(d.journals, j);
    EnterIsRun(env, cmd, PutJournal(d, j), j, budget);
  }

  lemma EnterIsRun(env: Environment, cmd: Command, d: Disk, j: Journal, budget: nat)
    requires Inv(env, d) && IsPending(d, j) && j.kind == CommandKind(cmd)
    requires env.contract.plan == cmd.plan && env.contract.round == cmd.round
    ensures Enter(env, cmd, d, j, KeyOf(j), budget) == Run(env, cmd, d, budget)
  {
    CandidateIs(d.journals, KeyOf(j));
    if PlanMatches(j.inputs, cmd) && RefusalOf(env, cmd, d, j, KeyOf(j)).None? {
      ContinueIsRun(env, cmd, d, j, budget);
    }
  }

  /** The code's run, validated once, is the run that revalidates before every durable write. */
  lemma ValidatedOnce(env: Environment, cmd: Command, d: Disk, budget: nat)
    requires Inv(env, d)
    ensures Invoke(env, cmd, d, budget) == Run(env, cmd, d, budget)
  {
    if PendingKeys(d.journals) == {} {
      ValidatedOnceFresh(env, cmd, d, budget);
    } else {
      var key :| key in PendingKeys(d.journals);
      PendingIs(d.journals, key);
      ValidatedOncePending(env, cmd, d, d.journals[key], budget);
    }
  }

  lemma ValidatedOncePending(env: Environment, cmd: Command, d: Disk, j: Journal, budget: nat)
    requires Inv(env, d) && IsPending(d, j)
    ensures Invoke(env, cmd, d, budget) == Run(env, cmd, d, budget)
  {
    CandidateIs(d.journals, KeyOf(j));
    if env.contract.plan == cmd.plan && env.contract.round == cmd.round && j.kind == CommandKind(cmd) {
      EnterIsRun(env, cmd, d, j, budget);
    }
  }

  lemma ValidatedOnceFresh(env: Environment, cmd: Command, d: Disk, budget: nat)
    requires Inv(env, d) && PendingKeys(d.journals) == {}
    ensures Invoke(env, cmd, d, budget) == Run(env, cmd, d, budget)
  {
    CandidateIsNone(d.journals);
    if env.contract.plan == cmd.plan && env.contract.round == cmd.round && Prepare(env, cmd, d).Success? {
      RunStep(env, cmd, d, Write(PutJournal(d, Prepare(env, cmd, d).value)), budget);
      if budget > 0 { PreparedResumes(env, cmd, d, budget - 1); }
    }
  }
}
