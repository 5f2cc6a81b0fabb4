// app/agent/workflow.py: one run of the bounded coding loop over whatever the model, the workspace, verification and
// the steering queue do, and the log it leaves behind.
module Workflow {
  import opened Wrappers
  import opened TaskState

  datatype Request = Request(
    goal: string, auto: bool, acceptance: seq<string>, constraints: seq<string>, requirements: seq<string>,
    autoLevel: bool)

  // `maxIterations` and `budget` are already the minima of settings and request.
  datatype Config = Config(
    maxIterations: nat, staticTokens: nat, budget: nat, steering: bool, boundary: bool, historyLimit: nat,
    replanAt: nat, humanAt: nat)

  datatype Worker = Crashed | Malformed(error: string) | Parsed(step: Step)

  // Everything one pass may observe, in the order it looks.
  datatype Turn = Turn(
    dynamicTokens: nat, worker: Worker, streamed: bool, required: bool, sameAtAnswer: bool, pendingAtAnswer: bool,
    modified: seq<string>, seen: seq<string>, pendingAtSafePoint: bool, sameAtReview: bool,
    passed: bool, report: string, recommended: Option<Text>, pendingAtFence: bool)

  datatype Exit = AnswerGiven | StepBlocked | BudgetSpent | TaskComplete | OutOfIterations | Raised

  predicate Blank(text: string) {
    forall c :: c in text ==> c in {' ', '\t', '\n', '\r'}
  }

  // can_answer_directly
  predicate CanAnswer(r: Request, step: Step, required: bool, same: bool) {
    r.auto && step.status == AnswerStep && !Blank(step.message) && r.acceptance == [] && r.requirements == []
    && r.autoLevel && !step.claims && !required && same
  }

  // _malformed_step
  function MalformedStep(error: string): Step {
    Step(BlockedStep, "", [], Some(Fixed(RetrySchema)), [], [Fixed(NoValidResult)], [Clip(error, 1000)], [], false)
  }

  function CodingRequest(r: Request): Request {
    r.(auto := false, acceptance := if r.acceptance == [] then [r.goal] else r.acceptance)
  }

  // The request is what was asked for, or coding work by now.
  predicate Still(asked: Request, r: Request) {
    (r.auto ==> r == asked) && r.(auto := asked.auto, acceptance := asked.acceptance) == asked
  }

  lemma StillTwice(asked: Request, before: Request, r: Request)
    requires Still(asked, before) && Still(before, r)
    ensures Still(asked, r)
  {
  }

  // create_initial_ledger
  function InitialLedger(r: Request): Ledger {
    Ledger(!r.auto, r.acceptance, Understand, Active,
           Some(Fixed(if r.auto then AnswerDirectly else InspectRepository)),
           0, false, [], [], r.constraints, [], [], [], [], 0, [])
  }

  // A ledger on which nothing has been done yet, and which asks for what the request asks for.
  ghost predicate Begins(r: Request, l: Ledger) {
    && (l.coding <==> !r.auto) && l.acceptance == r.acceptance && l.constraints == r.constraints
    && l.phase == Understand && l.status == Active && l.iteration == 0 && !l.reviewed && l.noProgress == 0
    && l.nextAction == Some(Fixed(if r.auto then AnswerDirectly else InspectRepository))
    && |l.progress| + |l.decisions| + |l.questions| + |l.blockers| + |l.fingerprints| == 0
    && |l.filesRead| + |l.filesModified| == 0
  }

  // ---------------------------------------------------------------- what becomes of the model's step

  datatype Settled = Broken | Answering(step: Step) | Working(step: Step)

  function Heard(worker: Worker): Step
    requires !worker.Crashed?
  {
    var step := if worker.Parsed? then worker.step else MalformedStep(worker.error);
    if step.status != ContinueStep then step
    else
      step.(status := BlockedStep,
            nextAction := Some(Fixed(ResumeTerminal)),
            questions := step.questions + [Fixed(StoppedEarly)])
  }

  // An answer stands only while nothing is owed and no steering waits; otherwise the step works on.
  function Settle(c: Config, r: Request, t: Turn): Settled {
    if t.worker.Crashed? then Broken
    else
      var step := Heard(t.worker);
      if step.status != AnswerStep then Working(step)
      else if !CanAnswer(r, step, t.required, t.sameAtAnswer) then
        if t.streamed then Broken else Working(step.(status := VerifyStep))
      else if c.steering && t.pendingAtAnswer then Working(step.(status := ContinueStep, message := ""))
      else Answering(step)
  }

  predicate Requests(status: StepStatus) { status in {VerifyStep, DoneStep} }

  predicate Pending(c: Config, waiting: bool) { c.steering && c.boundary && waiting }

  // Effects that must be reviewed once before they are verified.
  predicate Effects(t: Turn) { t.required || !t.sameAtReview }

  // ---------------------------------------------------------------- what one pass does to the ledger

  function Promoted(r: Request, l: Ledger, status: StepStatus): Ledger {
    if Requests(status) && r.auto then l.(coding := true, acceptance := CodingRequest(r).acceptance) else l
  }

  // Steering that waits at the safe point wins; otherwise unreviewed effects get one review before verification.
  function Fenced(c: Config, l: Ledger, status: StepStatus, t: Turn): Ledger {
    if Pending(c, t.pendingAtSafePoint) then ResumeForSteering(l)
    else if Requests(status) && Effects(t) && !l.reviewed then ReviewLedger(l)
    else l
  }

  function RouteOf(c: Config, l: Ledger, status: StepStatus, t: Turn): Route {
    if l.phase == Review then GoOn
    else DecideRoute(l, status, Pending(c, t.pendingAtSafePoint), c.replanAt, c.humanAt)
  }

  function AfterFailure(l: Ledger, t: Turn): Ledger {
    l.(phase := Implement, status := Active, nextAction := t.recommended)
  }

  function Checked(c: Config, l: Ledger, t: Turn): Ledger {
    if !t.passed then AfterFailure(l, t)
    else if Pending(c, t.pendingAtFence) then ResumeForSteering(l)
    else l.(phase := CompletePhase, status := Completed)
  }

  function Dispatched(c: Config, l: Ledger, status: StepStatus, t: Turn): Ledger {
    Routed(c, l, RouteOf(c, l, status, t), t)
  }

  function Routed(c: Config, l: Ledger, route: Route, t: Turn): Ledger {
    match route
    case Replanned => ReplanLedger(l)
    case Verified => Checked(c, l, t)
    case _ => l
  }

  // The ledger recorded for a working step, or none when its reduction raises.
  function Recorded(c: Config, r: Request, l: Ledger, step: Step, t: Turn): Option<Ledger> {
    Observed(Promoted(r, l, step.status), step, t.modified, t.seen, c.historyLimit)
  }

  // The ledger when the pass reaches its route.
  function Worked(c: Config, r: Request, l: Ledger, step: Step, t: Turn): Ledger
    requires Recorded(c, r, l, step, t).Some?
  {
    Fenced(c, Recorded(c, r, l, step, t).value, step.status, t)
  }

  // An empty decision is not a decision.
  predicate Decided(l: Ledger, step: Step) { "" !in l.decisions && "" !in step.decisions }

  // How a working pass ends and what ledger it leaves: an empty decision raises once the contract is recorded.
  ghost predicate WorkOutcome(c: Config, r: Request, l: Ledger, step: Step, t: Turn, exit: Option<Exit>, l': Ledger) {
    && (Decided(l, step) <==> Recorded(c, r, l, step, t).Some?)
    && (Recorded(c, r, l, step, t).Some? ==> RouteOutcome(c, Worked(c, r, l, step, t), step.status, t, exit, l'))
    && (Recorded(c, r, l, step, t).None? ==> exit == Some(Raised) && l' == Promoted(r, l, step.status))
  }

  ghost predicate RouteOutcome(c: Config, l: Ledger, status: StepStatus, t: Turn, exit: Option<Exit>, l': Ledger) {
    && (exit == Some(StepBlocked) <==> RouteOf(c, l, status, t) == Stopped)
    && (exit.Some? && exit.value != StepBlocked
        <==> RouteOf(c, l, status, t) == Verified && t.passed && !Pending(c, t.pendingAtFence))
    && (exit.Some? ==> exit.value.StepBlocked? || exit.value.TaskComplete? || exit.value.Raised?)
    && l' == if exit == Some(Raised) then l else Dispatched(c, l, status, t)
  }

  // How an affordable pass ends: an answer stands, a broken reply raises, work follows its route, and completion is
  // reported only past its gates.
  ghost predicate PassOutcome(
    c: Config, r: Request, l: Ledger, settled: Settled, t: Turn, exit: Option<Exit>, l': Ledger)
  {
    match settled
    case Broken => exit == Some(Raised) && l' == l
    case Answering(_) => exit == Some(AnswerGiven) && l' == AnsweredLedger(l)
    case Working(step) =>
      && WorkOutcome(c, r, l, step, t, exit, l') && exit != Some(AnswerGiven)
      && (exit == Some(TaskComplete) ==> Decided(l, step) && Finishes(c, step.status, l.reviewed, t))
  }

  function AnsweredLedger(l: Ledger): Ledger {
    l.(status := Answered, nextAction := None, iteration := l.iteration + 1)
  }

  predicate Affordable(c: Config, reserved: nat, t: Turn) { reserved + (c.staticTokens + t.dynamicTokens) <= c.budget }

  // When a pass whose input is paid for gets past its gates.
  predicate Finished(c: Config, r: Request, l: Ledger, t: Turn) {
    && Settle(c, r, t).Working? && Decided(l, Settle(c, r, t).step)
    && Finishes(c, Settle(c, r, t).step.status, l.reviewed, t)
  }

  ghost predicate SaysSomething(message: string) {
    exists ch :: ch in message && ch != ' ' && ch != '\t' && ch != '\n' && ch != '\r'
  }

  // The answer gate, field by field: the worker gave an answer that says something and claims nothing, to an automatic
  // request that owes nothing, in a turn that ran no effect, left the workspace alone and has no steering waiting.
  ghost predicate OnlyTalked(c: Config, r: Request, t: Turn) {
    && t.worker.Parsed? && t.worker.step.status == AnswerStep && !t.worker.step.claims
    && SaysSomething(t.worker.step.message)
    && r.auto && r.autoLevel && |r.acceptance| == 0 && |r.requirements| == 0
    && !t.required && t.sameAtAnswer && (c.steering ==> !t.pendingAtAnswer)
  }

  // The worker asked for verification, or gave an answer that is owed one.
  ghost predicate AskedToVerify(c: Config, r: Request, t: Turn) {
    && t.worker.Parsed?
    && (t.worker.step.status == VerifyStep || t.worker.step.status == DoneStep
        || (t.worker.step.status == AnswerStep && !t.streamed
            && !OnlyTalked(c.(steering := false), r, t)))
  }

  // The completion gates, field by field.
  ghost predicate PastEveryGate(c: Config, r: Request, l: Ledger, t: Turn) {
    && AskedToVerify(c, r, t) && "" !in l.decisions && "" !in t.worker.step.decisions
    && (c.steering && c.boundary ==> !t.pendingAtSafePoint && !t.pendingAtFence)
    && (t.required || !t.sameAtReview ==> l.reviewed) && t.passed
  }

  // The gate lets an answer stand exactly when the model only talked.
  lemma AnswersIff(c: Config, r: Request, t: Turn)
    ensures Settle(c, r, t).Answering? <==> OnlyTalked(c, r, t)
  {
    if t.worker.Parsed? {
      assert Blank(t.worker.step.message) <==> !SaysSomething(t.worker.step.message);
    }
  }

  // An answer that owes something works on as a request for verification; once it was streamed, it raises instead.
  lemma RefusedAnswer(c: Config, r: Request, t: Turn)
    requires t.worker.Parsed? && t.worker.step.status == AnswerStep && !OnlyTalked(c.(steering := false), r, t)
    ensures Settle(c, r, t)
            == if t.streamed then Broken
               else Settle(c, r, t.(worker := Parsed(t.worker.step.(status := VerifyStep))))
  {
    AnswersIff(c.(steering := false), r, t);
  }

  // ---------------------------------------------------------------- one pass, field by field

  // The worker gave no valid result, named a blocker, or stopped without an answer or a request for verification.
  ghost predicate GaveUp(t: Turn) {
    t.worker.Malformed?
    || (t.worker.Parsed? && (t.worker.step.status == BlockedStep || t.worker.step.status == ContinueStep))
  }

  // An answer that would stand, but steering waits.
  ghost predicate Interrupted(c: Config, r: Request, t: Turn) {
    OnlyTalked(c.(steering := false), r, t) && c.steering && t.pendingAtAnswer
  }

  // The next action the worker leaves: a fixed one when it gave no valid result or just stopped, or else its own, if
  // it has a text.
  ghost predicate Follows(l: Ledger, t: Turn, next: Option<Text>) {
    match t.worker
    case Parsed(step) =>
      next == if step.status == ContinueStep then Some(Fixed(ResumeTerminal))
              else if step.nextAction in {None, Some(Free(""))} then l.nextAction else step.nextAction
    case _ => next == Some(Fixed(RetrySchema))
  }

  ghost predicate NoEmptyDecision(l: Ledger, t: Turn) {
    "" !in l.decisions && (t.worker.Parsed? ==> "" !in t.worker.step.decisions)
  }

  predicate Stands(l: Ledger, phase: Phase, status: Status) { l.phase == phase && l.status == status }

  // Where a pass that worked leaves the task. Steering at the safe point goes first; then a request for verification
  // takes its gates in order; then a blocker stops; then stagnation stops or makes the task plan again.
  ghost predicate Leaves(c: Config, r: Request, l: Ledger, t: Turn, exit: Option<Exit>, l': Ledger) {
    if c.steering && c.boundary && t.pendingAtSafePoint then
      exit.None? && Stands(l', Implement, Active) && l'.nextAction == Some(Fixed(ApplySteering))
    else if AskedToVerify(c, r, t) then
      if (t.required || !t.sameAtReview) && !l.reviewed then
        exit.None? && Stands(l', Review, Active) && l'.reviewed && l'.nextAction == Some(Fixed(TryToFalsify))
      else if !t.passed then exit.None? && Stands(l', Implement, Active) && l'.nextAction == t.recommended
      else if c.steering && c.boundary && t.pendingAtFence then
        exit.None? && Stands(l', Implement, Active) && l'.nextAction == Some(Fixed(ApplySteering))
      else
        && Follows(l, t, l'.nextAction)
        && ((exit == Some(TaskComplete) && Stands(l', CompletePhase, Completed))
            || (exit == Some(Raised) && Stands(l', Verify, Verifying)))
    else if GaveUp(t) then
      exit == Some(StepBlocked) && Stands(l', BlockedPhase, NeedsInput) && Follows(l, t, l'.nextAction)
    else if l'.noProgress < c.humanAt && c.replanAt <= l'.noProgress && !Stuck(l, t) then
      exit.None? && Stands(l', Plan, Active) && l'.nextAction == Some(Fixed(Rethink))
    else
      && exit == (if l'.noProgress >= c.humanAt || Stuck(l, t) then Some(StepBlocked) else None)
      && Stands(l', Implement, Active) && Follows(l, t, l'.nextAction)
  }

  // A blocker is on record, and neither the ledger nor the worker names a next action.
  ghost predicate Stuck(l: Ledger, t: Turn) {
    && l.blockers != [] && l.nextAction in {None, Some(Free(""))}
    && t.worker.Parsed? && t.worker.step.nextAction in {None, Some(Free(""))}
  }

  // What such a pass leaves in the rest of the ledger: one iteration, the environment's counts, the contract that a
  // request for verification establishes, and the notes.
  ghost predicate Keeps(c: Config, r: Request, l: Ledger, t: Turn, l': Ledger) {
    && l'.iteration == l.iteration + 1 && Counts(l, t.modified, t.seen, c.historyLimit, l')
    && (l'.reviewed <==> l.reviewed || l'.phase == Review)
    && (t.worker.Parsed? ==> forall x :: x in l'.filesRead <==> x in l.filesRead || x in t.worker.step.focus)
    && (if AskedToVerify(c, r, t) && r.auto
        then l'.coding && l'.acceptance == if |r.acceptance| == 0 then [r.goal] else r.acceptance
        else l'.coding == l.coding && l'.acceptance == l.acceptance)
    && Notes(l, t.worker, l')
  }

  // The notes of a step; one that just stopped asks why, and an invalid result is kept as a question and a constraint.
  ghost predicate Notes(l: Ledger, worker: Worker, l': Ledger) {
    match worker
    case Parsed(step) =>
      AddsNotes(l, if step.status != ContinueStep then step
                   else step.(status := BlockedStep, questions := step.questions + [Fixed(StoppedEarly)]), l')
    case Malformed(error) =>
      && (forall x :: x in l'.progress <==> x in l.progress) && (forall x :: x in l'.decisions <==> x in l.decisions)
      && (forall x :: x in l'.questions <==> x in l.questions || x == Fixed(NoValidResult))
      && (forall r :: r in l'.blockers <==> r in l.blockers || r == Said(Fixed(NoValidResult)))
      && (forall x :: x in l'.constraints <==> x in l.constraints || (x <= error && |x| == Min(|error|, 1000)))
    case Crashed => l' == l
  }

  // How an affordable pass ends, and what it leaves.
  ghost predicate Decides(c: Config, r: Request, l: Ledger, t: Turn, exit: Option<Exit>, l': Ledger) {
    if OnlyTalked(c, r, t) then
      && exit == Some(AnswerGiven) && l'.status == Answered && l'.nextAction.None? && l'.iteration == l.iteration + 1
      && l'.(status := l.status, nextAction := l.nextAction, iteration := l.iteration) == l
    else if AskedToVerify(c, r, t) || GaveUp(t) || Interrupted(c, r, t) then
      if NoEmptyDecision(l, t) then Leaves(c, r, l, t, exit, l') && Keeps(c, r, l, t, l')
      else exit == Some(Raised) && l'.(coding := l.coding, acceptance := l.acceptance) == l
    else exit == Some(Raised) && l' == l
  }

  lemma SettledAs(c: Config, r: Request, t: Turn)
    ensures Settle(c, r, t).Working? <==> AskedToVerify(c, r, t) || GaveUp(t) || Interrupted(c, r, t)
    ensures Settle(c, r, t).Working? ==>
      var status := Settle(c, r, t).step.status;
      && (Requests(status) <==> AskedToVerify(c, r, t)) && (status == BlockedStep <==> GaveUp(t))
      && (status == ContinueStep <==> Interrupted(c, r, t))
  {
    AnswersIff(c, r, t);
    AnswersIff(c.(steering := false), r, t);
  }

  lemma SettledSays(c: Config, r: Request, l: Ledger, t: Turn)
    requires Settle(c, r, t).Working?
    ensures var step := Settle(c, r, t).step;
            && (Decided(l, step) <==> NoEmptyDecision(l, t))
            && (forall next :: Follows(l, t, next) <==> next == NextActionAfter(l, step))
            && (t.worker.Parsed? ==> step.focus == t.worker.step.focus)
            && forall l' :: AddsNotes(l, step, l') ==> Notes(l, t.worker, l')
  {
    var step := Settle(c, r, t).step;
    forall l' | AddsNotes(l, step, l') ensures Notes(l, t.worker, l') {
      SettledNotes(c, r, l, t, step, l');
    }
  }

  lemma SettledNotes(c: Config, r: Request, l: Ledger, t: Turn, step: Step, l': Ledger)
    requires Settle(c, r, t) == Working(step) && AddsNotes(l, step, l')
    ensures Notes(l, t.worker, l')
  {
    if t.worker.Malformed? {
      MalformedNotes(l, t.worker.error, l');
    }
  }

  lemma MalformedNotes(l: Ledger, error: string, l': Ledger)
    requires AddsNotes(l, MalformedStep(error), l')
    ensures Notes(l, Malformed(error), l')
  {
    var step := MalformedStep(error);
    var head := error[..Min(|error|, 1000)];
    assert ReasonTexts(step) == [Fixed(NoValidResult)];
    assert Clip(error, 1000) == head && step.constraints == [Clip(error, 1000)];
    forall x ensures x in step.constraints <==> x <= error && |x| == Min(|error|, 1000) {
      if x <= error && |x| == Min(|error|, 1000) {
        assert x == error[..|x|];
      }
    }
    forall r ensures ReasonOf(step, r) <==> r == Said(Fixed(NoValidResult)) {
    }
  }

  lemma FinishedIff(c: Config, r: Request, l: Ledger, t: Turn)
    ensures Finished(c, r, l, t) <==> PastEveryGate(c, r, l, t)
  {
    SettledAs(c, r, t);
    if Settle(c, r, t).Working? {
      SettledSays(c, r, l, t);
    }
  }

  // The ledger recorded for a working step, against the ledger before the pass.
  ghost predicate Records(c: Config, r: Request, l: Ledger, step: Step, t: Turn, l': Ledger) {
    && StepsTo(l.(coding := l'.coding, acceptance := l'.acceptance), step, l')
    && Counts(l, t.modified, t.seen, c.historyLimit, l') && AddsNotes(l, step, l')
    && (forall x :: x in l'.filesRead <==> x in l.filesRead || x in step.focus)
    && if Requests(step.status) && r.auto
       then l'.coding && l'.acceptance == if |r.acceptance| == 0 then [r.goal] else r.acceptance
       else l'.coding == l.coding && l'.acceptance == l.acceptance
  }

  lemma RecordedAs(c: Config, r: Request, l: Ledger, step: Step, t: Turn, l': Ledger)
    requires Recorded(c, r, l, step, t) == Some(l')
    ensures Records(c, r, l, step, t, l')
  {
    var promoted := Promoted(r, l, step.status);
    StepFacts(promoted, step, t.modified, t.seen, c.historyLimit);
    ObservedCounts(promoted, step, t.modified, t.seen, c.historyLimit);
    ObservedNotes(promoted, step, t.modified, t.seen, c.historyLimit);
    SameNotesBefore(promoted, l, step, l');
  }

  lemma SameNotesBefore(before: Ledger, l: Ledger, step: Step, l': Ledger)
    requires AddsNotes(before, step, l') && before == l.(coding := before.coding, acceptance := before.acceptance)
    ensures AddsNotes(l, step, l')
  {
  }

  // Safe point and route change phase, status, next action and review mark alone.
  ghost predicate SameWork(l: Ledger, l': Ledger) {
    l'.(phase := l.phase, status := l.status, nextAction := l.nextAction, reviewed := l.reviewed) == l
    && (l.phase != Review ==> (l'.reviewed <==> l.reviewed || l'.phase == Review))
  }

  lemma RouteKeeps(c: Config, l: Ledger, status: StepStatus, t: Turn, exit: Option<Exit>, l': Ledger)
    requires RouteOutcome(c, Fenced(c, l, status, t), status, t, exit, l')
    ensures SameWork(l, l')
  {
  }

  lemma WorkKeeps(c: Config, r: Request, l: Ledger, step: Step, t: Turn, o: Ledger, l': Ledger)
    requires Settle(c, r, t) == Working(step) && Records(c, r, l, step, t, o) && SameWork(o, l')
    ensures Keeps(c, r, l, t, l')
  {
    SettledAs(c, r, t);
    SettledSays(c, r, l, t);
    assert l'.fingerprints == o.fingerprints;
    assert AddsNotes(l, step, l');
  }

  lemma AskedLeaves(
    c: Config, r: Request, l: Ledger, step: Step, t: Turn, exit: Option<Exit>, o: Ledger, l': Ledger)
    requires AskedToVerify(c, r, t) && Requests(step.status) && Records(c, r, l, step, t, o)
    requires RouteOutcome(c, Fenced(c, o, step.status, t), step.status, t, exit, l')
    requires Follows(l, t, NextActionAfter(l, step))
    ensures Leaves(c, r, l, t, exit, l')
  {
  }

  lemma BlockerLeaves(
    c: Config, r: Request, l: Ledger, step: Step, t: Turn, exit: Option<Exit>, o: Ledger, l': Ledger)
    requires GaveUp(t) && !AskedToVerify(c, r, t) && step.status == BlockedStep && Records(c, r, l, step, t, o)
    requires RouteOutcome(c, Fenced(c, o, step.status, t), step.status, t, exit, l')
    requires Follows(l, t, NextActionAfter(l, step))
    ensures Leaves(c, r, l, t, exit, l')
  {
  }

  lemma InterruptedLeaves(
    c: Config, r: Request, l: Ledger, step: Step, t: Turn, exit: Option<Exit>, o: Ledger, l': Ledger)
    requires Interrupted(c, r, t) && !AskedToVerify(c, r, t) && !GaveUp(t)
    requires step.status == ContinueStep && step.nextAction == t.worker.step.nextAction
    requires Records(c, r, l, step, t, o) && Follows(l, t, NextActionAfter(l, step))
    requires RouteOutcome(c, Fenced(c, o, step.status, t), step.status, t, exit, l')
    ensures Leaves(c, r, l, t, exit, l')
  {
    assert Stuck(l, t) <==> o.blockers != [] && !Nonempty(o.nextAction);
  }

  lemma WorkLeaves(
    c: Config, r: Request, l: Ledger, step: Step, t: Turn, exit: Option<Exit>, o: Ledger, l': Ledger)
    requires Settle(c, r, t) == Working(step) && Records(c, r, l, step, t, o)
    requires RouteOutcome(c, Fenced(c, o, step.status, t), step.status, t, exit, l')
    ensures Leaves(c, r, l, t, exit, l')
  {
    SettledAs(c, r, t);
    SettledSays(c, r, l, t);
    if Requests(step.status) {
      AskedLeaves(c, r, l, step, t, exit, o, l');
    } else if step.status == BlockedStep {
      BlockerLeaves(c, r, l, step, t, exit, o, l');
    } else {
      InterruptedLeaves(c, r, l, step, t, exit, o, l');
    }
  }

  lemma WorkDecides(c: Config, r: Request, l: Ledger, step: Step, t: Turn, exit: Option<Exit>, l': Ledger)
    requires Settle(c, r, t) == Working(step) && Recorded(c, r, l, step, t).Some?
    requires RouteOutcome(c, Worked(c, r, l, step, t), step.status, t, exit, l')
    ensures Leaves(c, r, l, t, exit, l') && Keeps(c, r, l, t, l')
  {
    var o := Recorded(c, r, l, step, t).value;
    RecordedAs(c, r, l, step, t, o);
    RouteKeeps(c, o, step.status, t, exit, l');
    WorkKeeps(c, r, l, step, t, o, l');
    WorkLeaves(c, r, l, step, t, exit, o, l');
  }

  // What every way of ending a pass means, in the terms of the worker's turn.
  lemma PassDecides(c: Config, r: Request, l: Ledger, t: Turn, exit: Option<Exit>, l': Ledger)
    requires PassOutcome(c, r, l, Settle(c, r, t), t, exit, l')
    ensures Decides(c, r, l, t, exit, l')
  {
    AnswersIff(c, r, t);
    SettledAs(c, r, t);
    if Settle(c, r, t).Working? {
      var step := Settle(c, r, t).step;
      SettledSays(c, r, l, t);
      if Decided(l, step) {
        WorkDecides(c, r, l, step, t, exit, l');
      }
    }
  }

  function StopReason(l: Ledger): Reason {
    if l.blockers != [] then l.blockers[|l.blockers| - 1] else Said(Fixed(HumanNeeded))
  }

  // The live ledger with the next action its log holds.
  function Kept(log: seq<Entry>, l: Ledger): Ledger {
    if Replay(log).None? then l else l.(nextAction := Replay(log).value.nextAction)
  }

  // The log rebuilds the live ledger, except perhaps its next action.
  ghost predicate Tracks(log: seq<Entry>, l: Ledger) {
    log != [] && Good(log) && Replay(log) == Some(Kept(log, l))
  }

  // The log only grows, always replays, and never falls behind a live ledger it held.
  ghost predicate Carries(before: seq<Entry>, l: Ledger, log: seq<Entry>, l': Ledger) {
    before <= log && log != [] && Good(log) && (Kept(before, l) == l ==> Kept(log, l') == l')
  }

  lemma CarriesOn(first: seq<Entry>, l: Ledger, before: seq<Entry>, l': Ledger, log: seq<Entry>, l'': Ledger)
    requires Carries(first, l, before, l') && Carries(before, l', log, l'')
    ensures Carries(first, l, log, l'')
  {
  }

  // The patch of a change keeps the log tracking: only a next action that did not change may stay behind.
  lemma PatchTracks(log: seq<Entry>, key: Key, l: Ledger, l': Ledger, longer: seq<Entry>)
    requires Tracks(log, l) && Stored(log, key).None? && Advances(l, l') && Claimed(key, l')
    requires longer == log + [Entry(key, Patched(Diff(l, l')))]
    ensures Tracks(longer, l') && Carries(log, l, longer, l')
    ensures l.nextAction != l'.nextAction ==> Kept(longer, l') == l'
  {
    var kept := Kept(log, l);
    PatchGood(log, key, kept, Overlay(kept, Diff(l, l')), Diff(l, l'));
  }

  // The log rebuilds a ledger that needs input, with this reason after its blockers, and is otherwise l.
  ghost predicate HeldUp(log: seq<Entry>, l: Ledger, reason: Reason) {
    && Replay(log).Some? && Stands(Replay(log).value, BlockedPhase, NeedsInput)
    && Replay(log).value.blockers == l.blockers + [reason]
    && Replay(log).value.(phase := l.phase, status := l.status, blockers := l.blockers) == l
  }

  // A block leaves the live ledger alone.
  lemma BlockTracks(log: seq<Entry>, key: Key, reason: Reason, l: Ledger, longer: seq<Entry>)
    requires Tracks(log, l) && Stored(log, key).None? && longer == log + [Entry(key, TaskBlocked(reason))]
    requires Witnessed(Entry(key, TaskBlocked(reason)), Block(l, reason))
    ensures Carries(log, l, longer, l) && HeldUp(longer, Kept(longer, l), reason)
  {
    var kept := Kept(log, l);
    AppendGood(log, Entry(key, TaskBlocked(reason)), kept, Block(kept, reason));
  }

  // How log and ledger stand when a run has ended.
  ghost predicate Ended(exit: Exit, before: seq<Entry>, log: seq<Entry>, l: Ledger) {
    match exit
    case AnswerGiven => Replay(log) == Some(l) && l.status == Answered
    case StepBlocked =>
      HeldUp(log, l, if |l.blockers| == 0 then Said(Fixed(HumanNeeded)) else l.blockers[|l.blockers| - 1])
    case BudgetSpent =>
      if Stored(before, BudgetKey(l.iteration)).Some? then Replay(log) == Some(l)
      else exists used: nat, projected: nat, allowed: nat ::
             used + projected > allowed && HeldUp(log, l, OverBudget(used, projected, allowed))
    case TaskComplete =>
      && l.status == Completed && l.phase == CompletePhase
      && Replay(log) == Some(if Stored(before, FinishedKey).None? then l else l.(phase := Verify, status := Verifying))
    case OutOfIterations =>
      if Stored(before, LimitKey).Some? then Replay(log) == Some(l)
      else exists max: nat :: max <= l.iteration && HeldUp(log, l, LimitReached(max))
    case Raised => true
  }

  // How a run over the log `before` concludes: the log has grown, replays, and is left as the exit promises; the passes
  // stay within the limit, completion is reported only past every gate, an answer only after a turn of mere talk, and
  // exhaustion only at the limit.
  ghost predicate Concludes(
    c: Config, r: Request, turns: nat -> Turn, exit: Exit, passes: nat, before: seq<Entry>, log: seq<Entry>, l: Ledger)
  {
    && log != [] && Good(log) && before <= log && Ended(exit, before, log, Kept(log, l))
    && passes <= c.maxIterations
    && (exit in {TaskComplete, AnswerGiven} ==> passes > 0 && Earned(c, r, exit, turns(passes - 1), l))
    && (exit == OutOfIterations ==> l.iteration >= c.maxIterations)
  }

  // The keys a pass that has reached iteration n may still use.
  ghost predicate OpenPass(log: seq<Entry>, n: nat) {
    forall e :: e in log ==> e.key !in {Replan(n), VerifyFailed(n), Fence(n), BlockedKey(n)}
  }

  // Keys that only an exit appends.
  predicate ExitKey(key: Key) { key.FinishedKey? || key.LimitKey? || key.BudgetKey? }

  ghost predicate Grows(before: seq<Entry>, log: seq<Entry>) {
    before <= log && forall e :: e in log ==> e in before || !ExitKey(e.key)
  }

  // A key's first occurrence in a log is found in its prefix if the prefix has it at all.
  lemma {:induction false} StoredTail(before: seq<Entry>, log: seq<Entry>, key: Key)
    requires before <= log && forall e :: e in log && e.key == key ==> e in before
    ensures Stored(log, key) == Stored(before, key)
  {
    if before == [] {
      assert forall e :: e in log ==> e.key != key;
    } else if before[0].key != key {
      forall e | e in log[1..] && e.key == key ensures e in before[1..] {
        assert e in before && e != before[0];
      }
      StoredTail(before[1..], log[1..], key);
    }
  }

  lemma StoredGrows(before: seq<Entry>, log: seq<Entry>, key: Key)
    requires Grows(before, log) && ExitKey(key)
    ensures Stored(log, key) == Stored(before, key)
  {
    StoredTail(before, log, key);
  }

  lemma EndedSince(exit: Exit, first: seq<Entry>, before: seq<Entry>, log: seq<Entry>, l: Ledger)
    requires Grows(first, before) && Ended(exit, before, log, l)
    ensures Ended(exit, first, log, l)
  {
    StoredGrows(first, before, FinishedKey);
    StoredGrows(first, before, LimitKey);
    StoredGrows(first, before, BudgetKey(l.iteration));
  }

  // A key of iteration n.
  predicate Numbered(key: Key, n: nat) {
    key in {Answer(n), AgentStep(n), SafePoint(n), Replan(n), VerifyFailed(n), Fence(n), BudgetKey(n), BlockedKey(n)}
  }

  lemma WitnessNotAhead(e: Entry, l: Ledger)
    requires Witnessed(e, l)
    ensures !Numbered(e.key, l.iteration + 1)
  {
  }

  // The next iteration's keys are unused.
  lemma NextPassFresh(log: seq<Entry>, l: Ledger)
    requires Good(log) && Replay(log) == Some(l)
    ensures Stored(log, AgentStep(l.iteration + 1)).None? && Stored(log, Answer(l.iteration + 1)).None?
    ensures OpenPass(log, l.iteration + 1) && forall e :: e in log ==> e.key != SafePoint(l.iteration + 1)
  {
    forall e | e in log ensures !Numbered(e.key, l.iteration + 1) {
      WitnessNotAhead(e, l);
    }
  }

  // The pass of the ledger's iteration has begun and used none of its later keys.
  ghost predicate Entered(log: seq<Entry>, l: Ledger) {
    && OpenPass(log, l.iteration) && l.phase != Review && (forall e :: e in log ==> e.key != SafePoint(l.iteration))
  }

  lemma AdvanceOpens(before: seq<Entry>, body: Body, l: Ledger, log: seq<Entry>)
    requires log == before + [Entry(AgentStep(l.iteration), body)] && l.phase != Review
    requires OpenPass(before, l.iteration) && forall e :: e in before ==> e.key != SafePoint(l.iteration)
    ensures Grows(before, log) && Entered(log, l)
  {
  }

  // What a pass that began at l knows when it reaches its route.
  ghost predicate Arrives(c: Config, l: Ledger, status: StepStatus, t: Turn, reached: Ledger) {
    && reached.iteration == l.iteration + 1 && (l.reviewed ==> reached.reviewed)
    && (Reaches(c, status, reached, t) ==> reached.phase == Verify && reached.status == Verifying)
    && (Reaches(c, status, reached, t) <==>
          Requests(status) && !Pending(c, t.pendingAtSafePoint) && (Effects(t) ==> l.reviewed))
  }

  lemma Arrival(c: Config, l: Ledger, l': Ledger, step: Step, t: Turn)
    requires StepsTo(l, step, l')
    ensures Arrives(c, l, step.status, t, Fenced(c, l', step.status, t))
  {
  }

  lemma SeenGood(log: seq<Entry>, l: Ledger, checkpoint: Checkpoint, current: string, longer: seq<Entry>)
    requires Good(log) && log != [] && Replay(log) == Some(l) && Stored(log, ReconcileSeen(current)).None?
    requires longer == log + [Entry(ReconcileSeen(current), Moved(checkpoint))]
    ensures Good(longer) && Replay(longer) == Some(l) && Grows(log, longer)
  {
    AppendGood(log, Entry(ReconcileSeen(current), Moved(checkpoint)), l, l);
  }

  lemma NotedGood(log: seq<Entry>, l: Ledger, current: string, longer: seq<Entry>)
    requires Good(log) && log != [] && Replay(log) == Some(l) && Stored(log, ReconcileLedger(current)).None?
    requires longer == log + [Entry(ReconcileLedger(current), ReconcilingPatch(l))]
    ensures Good(longer) && Replay(longer) == Some(Reconciling(l)) && Grows(log, longer)
  {
    OverlayDiff(l, Reconciling(l));
    AppendGood(log, Entry(ReconcileLedger(current), ReconcilingPatch(l)), l, Reconciling(l));
  }

  ghost predicate HasKey(log: seq<Entry>, key: Key) { exists e :: e in log && e.key == key }

  lemma PutHasKey(log: seq<Entry>, key: Key, body: Body, longer: seq<Entry>)
    requires Put(log, key, body) <= longer
    ensures HasKey(longer, key)
  {
    var put := Put(log, key, body);
    var e := if Stored(log, key).Some? then Entry(key, Stored(log, key).value) else put[|log|];
    assert e in put;
    assert e in longer;
  }

  // What initialisation notes: nothing at the workspace of the checkpoint, and a workspace that moved under both keys.
  ghost predicate Prepared(
    before: seq<Entry>, checkpoint: Option<Checkpoint>, current: string, ok: bool, log: seq<Entry>, l: Ledger)
  {
    if checkpoint.None? || checkpoint.value.fingerprint == current
    then ok && if before != [] then log == before && Replay(log) == Some(l)
               else log == [Entry(CreatedKey, TaskCreated(l))]
    else ok ==> l.nextAction == Some(Fixed(ReconcileWorkspace)) && HasKey(log, ReconcileSeen(current))
                && HasKey(log, ReconcileLedger(current))
  }

  // A new key is appended; a known one is accepted only with what it holds.
  ghost predicate Keyed(before: seq<Entry>, key: Key, body: Body, log: seq<Entry>, ok: bool) {
    if forall e :: e in before ==> e.key != key then ok && log == before + [Entry(key, body)]
    else
      && log == before && (ok ==> Entry(key, body) in log)
      && (!ok ==> exists e :: e in log && e.key == key && e.body != body)
  }

  lemma NotedTracks(log: seq<Entry>, l: Ledger, current: string, noted: seq<Entry>)
    requires Good(log) && log != [] && Replay(log) == Some(l)
    requires noted == Put(log, ReconcileLedger(current), ReconcilingPatch(l))
    ensures Grows(log, noted) && Tracks(noted, Reconciling(l))
    ensures Kept(noted, Reconciling(l)) == Reconciling(l)
            <==> Stored(log, ReconcileLedger(current)).None? || l.nextAction == Some(Fixed(ReconcileWorkspace))
  {
    if Stored(log, ReconcileLedger(current)).None? {
      NotedGood(log, l, current, noted);
    }
  }

  class WorkflowRun {
    const config: Config
    var request: Request
    var log: seq<Entry>
    var ledger: Ledger
    var reserved: nat

    constructor (config: Config, request: Request, log: seq<Entry>, reserved: nat)
      ensures this.config == config && this.request == request && this.log == log && this.reserved == reserved
    {
      this.config := config;
      this.request := request;
      this.log := log;
      this.ledger := InitialLedger(request);
      this.reserved := reserved;
    }

    // The live ledger is what a restart would rebuild, except perhaps its next action.
    ghost predicate Tracking()
      reads this
    {
      Tracks(log, ledger) && (ledger.coding ==> !request.auto)
    }

    // It is exactly that.
    ghost predicate InSync()
      reads this
    {
      Tracking() && Kept(log, ledger) == ledger
    }

    method Append(key: Key, body: Body) returns (ok: bool)
      modifies this`log
      ensures ok == Accepts(old(log), key, body) && log == Put(old(log), key, body)
      ensures Keyed(old(log), key, body, log, ok)
    {
      var known := Stored(log, key);
      if known.Some? {
        return known.value == body;
      }
      log := log + [Entry(key, body)];
      ok := true;
    }

    // previous = ledger; ledger = after; append the patch between them.
    method AppendPatch(key: Key, after: Ledger)
      requires Tracking() && Stored(log, key).None? && Advances(ledger, after)
      requires Claimed(key, after) && (after.coding ==> !request.auto)
      modifies this`log, this`ledger
      ensures Tracking() && ledger == after && Carries(old(log), old(ledger), log, ledger)
      ensures old(ledger).nextAction != after.nextAction ==> InSync()
      ensures log == old(log) + [Entry(key, Patched(Diff(old(ledger), after)))]
    {
      var previous := ledger;
      ledger := after;
      var patch := Diff(previous, after);
      PatchTracks(log, key, previous, after, log + [Entry(key, Patched(patch))]);
      var ok := Append(key, Patched(patch));
    }

    // The same, by what the log may now hold.
    method Record(key: Key, after: Ledger)
      requires Tracking() && Stored(log, key).None? && Advances(ledger, after)
      requires Claimed(key, after) && (after.coding ==> !request.auto) && !ExitKey(key)
      modifies this`log, this`ledger
      ensures Tracking() && ledger == after && Carries(old(log), old(ledger), log, ledger)
      ensures Grows(old(log), log) && forall e :: e in log ==> e in old(log) || e.key == key
    {
      AppendPatch(key, after);
    }

    method Reserve(projected: nat, limit: nat) returns (ok: bool, used: nat)
      modifies this`reserved
      ensures used == old(reserved) && ok == (used + projected <= limit)
      ensures reserved == if ok then used + projected else used
    {
      used := reserved;
      if used + projected > limit {
        return false, used;
      }
      reserved := used + projected;
      ok := true;
    }

    // The model's raw step, settled against obligations and waiting steering.
    method Hear(t: Turn) returns (out: Settled)
      ensures out == Settle(config, request, t)
    {
      if t.worker.Crashed? {
        return Broken;
      }
      var step := if t.worker.Parsed? then t.worker.step else MalformedStep(t.worker.error);
      if step.status == ContinueStep {
        step := step.(
          status := BlockedStep, nextAction := Some(Fixed(ResumeTerminal)),
          questions := step.questions + [Fixed(StoppedEarly)]);
      }
      if step.status == AnswerStep {
        if !CanAnswer(request, step, t.required, t.sameAtAnswer) {
          if t.streamed {
            return Broken;
          }
          step := step.(status := VerifyStep);
        } else if config.steering && t.pendingAtAnswer {
          step := step.(status := ContinueStep, message := "");
        } else {
          return Answering(step);
        }
      }
      out := Working(step);
    }

    method GiveAnswer()
      requires Tracking()
      modifies this`log, this`ledger
      ensures Tracking() && ledger == AnsweredLedger(old(ledger)) && Carries(old(log), old(ledger), log, ledger)
    {
      NextPassFresh(log, Kept(log, ledger));
      Record(Answer(ledger.iteration + 1), AnsweredLedger(ledger));
    }

    method Promote(step: Step)
      requires Tracking()
      modifies this`log, this`ledger, this`request
      ensures Tracking() && Grows(old(log), log) && Carries(old(log), old(ledger), log, ledger)
      ensures ledger == Promoted(old(request), old(ledger), step.status)
      ensures request
              == if Requests(step.status) && old(request).auto then CodingRequest(old(request)) else old(request)
      ensures Still(old(request), request)
    {
      if Requests(step.status) && request.auto {
        request := CodingRequest(request);
        Record(Contract, ledger.(coding := true, acceptance := request.acceptance));
      }
    }

    // reduce_agent_step and the workspace observations, as one patch; an empty decision raises and changes nothing.
    method Advance(step: Step, t: Turn) returns (ok: bool)
      requires Tracking()
      modifies this`log, this`ledger
      ensures ok <==> Decided(old(ledger), step)
      ensures !ok ==> log == old(log) && ledger == old(ledger)
      ensures ok <==> Observed(old(ledger), step, t.modified, t.seen, config.historyLimit).Some?
      ensures ok ==> ledger == Observed(old(ledger), step, t.modified, t.seen, config.historyLimit).value
      ensures Tracking() && Grows(old(log), log) && Carries(old(log), old(ledger), log, ledger)
      ensures ok ==> Entered(log, ledger) && StepsTo(old(ledger), step, ledger)
      ensures ok ==> log == old(log) + [StepEntry(old(ledger), ledger)]
    {
      StepFacts(ledger, step, t.modified, t.seen, config.historyLimit);
      var after := Observed(ledger, step, t.modified, t.seen, config.historyLimit);
      if after.None? {
        return false;
      }
      EnterPass(after.value);
      ok := true;
    }

    method EnterPass(after: Ledger)
      requires Tracking() && after.iteration == ledger.iteration + 1 && after.phase != Review
      requires Advances(ledger, after) && after.coding == ledger.coding
      modifies this`log, this`ledger
      ensures Tracking() && ledger == after && Carries(old(log), old(ledger), log, ledger)
      ensures Grows(old(log), log) && Entered(log, ledger) && log == old(log) + [StepEntry(old(ledger), after)]
    {
      NextPassFresh(log, Kept(log, ledger));
      ghost var entry := StepEntry(ledger, after);
      AdvanceOpens(log, entry.body, after, log + [entry]);
      AppendPatch(AgentStep(after.iteration), after);
    }

    method SafePoint(step: Step, t: Turn)
      requires Tracking() && Entered(log, ledger)
      modifies this`log, this`ledger
      ensures Tracking() && Grows(old(log), log) && Carries(old(log), old(ledger), log, ledger)
      ensures ledger == Fenced(config, old(ledger), step.status, t) && OpenPass(log, ledger.iteration)
    {
      if Pending(config, t.pendingAtSafePoint) {
        Record(TaskState.SafePoint(ledger.iteration), ResumeForSteering(ledger));
      } else if Requests(step.status) && Effects(t) && !ledger.reviewed {
        Record(ReviewKey, ReviewLedger(ledger));
      }
    }

    method VerificationTransition(t: Turn) returns (exit: Option<Exit>)
      requires Tracking() && OpenPass(log, ledger.iteration) && ledger.phase == Verify && ledger.status == Verifying
      modifies this`log, this`ledger
      ensures Carries(old(log), old(ledger), log, ledger)
      ensures ledger.iteration == old(ledger.iteration) && ledger.reviewed == old(ledger.reviewed)
      ensures exit.None? ==> Tracking() && Grows(old(log), log)
      ensures exit.Some? <==> t.passed && !Pending(config, t.pendingAtFence)
      ensures exit.Some? ==>
        exit.value == if Accepts(old(log), FinishedKey, TaskFinished(t.report)) then TaskComplete else Raised
      ensures exit == Some(TaskComplete) ==> Ended(TaskComplete, old(log), log, Kept(log, ledger))
      ensures ledger == if exit == Some(Raised) then old(ledger) else Checked(config, old(ledger), t)
    {
      if !t.passed {
        Record(VerifyFailed(ledger.iteration),
               ledger.(phase := Implement, status := Active, nextAction := t.recommended));
        return None;
      }
      if Pending(config, t.pendingAtFence) {
        Record(Fence(ledger.iteration), ResumeForSteering(ledger));
        return None;
      }
      exit := Finish(t.report);
    }

    // append task-finished; ledger = ledger completed.
    method Finish(report: string) returns (exit: Option<Exit>)
      requires Tracking() && ledger.phase == Verify && ledger.status == Verifying
      modifies this`log, this`ledger
      ensures Carries(old(log), old(ledger), log, ledger)
      ensures exit == Some(if Accepts(old(log), FinishedKey, TaskFinished(report)) then TaskComplete else Raised)
      ensures exit == Some(TaskComplete) ==> Ended(TaskComplete, old(log), log, Kept(log, ledger))
      ensures ledger == if exit == Some(Raised) then old(ledger)
                        else old(ledger).(phase := CompletePhase, status := Completed)
    {
      ghost var kept := Kept(log, ledger);
      if Stored(log, FinishedKey).None? {
        AppendGood(log, Entry(FinishedKey, TaskFinished(report)), kept,
                   kept.(phase := CompletePhase, status := Completed));
      }
      var ok := Append(FinishedKey, TaskFinished(report));
      if ok {
        ledger := ledger.(phase := CompletePhase, status := Completed);
        exit := Some(TaskComplete);
      } else {
        exit := Some(Raised);
      }
    }

    method StopBlocked()
      requires Tracking() && OpenPass(log, ledger.iteration)
      modifies this`log
      ensures Carries(old(log), ledger, log, ledger) && Ended(StepBlocked, old(log), log, Kept(log, ledger))
    {
      var reason := StopReason(ledger);
      var ok := AppendBlock(BlockedKey(ledger.iteration), reason);
    }

    // append a task-blocked event, which the live ledger does not follow.
    method AppendBlock(key: Key, reason: Reason) returns (ok: bool)
      requires Tracking()
      requires Stored(log, key).None? ==> Witnessed(Entry(key, TaskBlocked(reason)), Block(ledger, reason))
      modifies this`log
      ensures Carries(old(log), ledger, log, ledger) && ok == Accepts(old(log), key, TaskBlocked(reason))
      ensures if Stored(old(log), key).None? then ok && HeldUp(log, Kept(log, ledger), reason) else log == old(log)
    {
      if Stored(log, key).None? {
        BlockTracks(log, key, reason, ledger, log + [Entry(key, TaskBlocked(reason))]);
      }
      ok := Append(key, TaskBlocked(reason));
    }

    method StopOverBudget(used: nat, projected: nat) returns (exit: Exit)
      requires Tracking() && used + projected > config.budget
      modifies this`log
      ensures Carries(old(log), ledger, log, ledger)
      ensures var body := TaskBlocked(OverBudget(used, projected, config.budget));
              exit == if Accepts(old(log), BudgetKey(ledger.iteration), body) then BudgetSpent else Raised
      ensures Ended(exit, old(log), log, Kept(log, ledger))
    {
      var reason := OverBudget(used, projected, config.budget);
      var ok := AppendBlock(BudgetKey(ledger.iteration), reason);
      exit := if ok then BudgetSpent else Raised;
    }

    method Dispatch(status: StepStatus, t: Turn) returns (exit: Option<Exit>)
      requires Tracking() && OpenPass(log, ledger.iteration)
      requires Reaches(config, status, ledger, t) ==> ledger.phase == Verify && ledger.status == Verifying
      modifies this`log, this`ledger
      ensures Carries(old(log), old(ledger), log, ledger)
      ensures ledger.iteration == old(ledger.iteration) && ledger.reviewed == old(ledger.reviewed)
      ensures exit.None? ==> Tracking() && Grows(old(log), log)
      ensures exit.Some? ==> Ended(exit.value, old(log), log, Kept(log, ledger))
      ensures RouteOutcome(config, old(ledger), status, t, exit, ledger)
      ensures exit.Some? && exit.value != StepBlocked ==>
        exit.value == if Accepts(old(log), FinishedKey, TaskFinished(t.report)) then TaskComplete else Raised
    {
      VerifiedIff(config, ledger, status, t);
      var pending := Pending(config, t.pendingAtSafePoint);
      var route := if ledger.phase == Review then GoOn
                   else DecideRoute(ledger, status, pending, config.replanAt, config.humanAt);
      assert route == RouteOf(config, ledger, status, t);
      exit := Follow(route, t);
    }

    // What the loop does on a route.
    method Follow(route: Route, t: Turn) returns (exit: Option<Exit>)
      requires Tracking() && OpenPass(log, ledger.iteration)
      requires route == Verified ==> ledger.phase == Verify && ledger.status == Verifying
      modifies this`log, this`ledger
      ensures Carries(old(log), old(ledger), log, ledger)
      ensures ledger.iteration == old(ledger.iteration) && ledger.reviewed == old(ledger.reviewed)
      ensures exit.None? ==> Tracking() && Grows(old(log), log)
      ensures exit.Some? ==> Ended(exit.value, old(log), log, Kept(log, ledger))
      ensures exit.Some? ==> exit.value.StepBlocked? || exit.value.TaskComplete? || exit.value.Raised?
      ensures exit == Some(StepBlocked) <==> route == Stopped
      ensures exit.Some? && exit.value != StepBlocked
              <==> route == Verified && t.passed && !Pending(config, t.pendingAtFence)
      ensures exit.Some? && exit.value != StepBlocked ==>
        exit.value == if Accepts(old(log), FinishedKey, TaskFinished(t.report)) then TaskComplete else Raised
      ensures ledger == if exit == Some(Raised) then old(ledger) else Routed(config, old(ledger), route, t)
    {
      match route
      case GoOn =>
        exit := None;
      case Stopped =>
        StopBlocked();
        exit := Some(StepBlocked);
      case Replanned =>
        Record(Replan(ledger.iteration), ReplanLedger(ledger));
        exit := None;
      case Verified =>
        exit := VerificationTransition(t);
    }

    // The reduced step and the safe point after it.
    method TakeStep(step: Step, t: Turn) returns (ok: bool)
      requires Tracking()
      modifies this`log, this`ledger
      ensures ok <==> Decided(old(ledger), step)
      ensures ok <==> Observed(old(ledger), step, t.modified, t.seen, config.historyLimit).Some?
      ensures Tracking() && Grows(old(log), log) && Carries(old(log), old(ledger), log, ledger)
      ensures !ok ==> ledger == old(ledger)
      ensures ok ==>
        var after := Observed(old(ledger), step, t.modified, t.seen, config.historyLimit);
        after.Some? && ledger == Fenced(config, after.value, step.status, t) && OpenPass(log, ledger.iteration)
      ensures ok ==> Arrives(config, old(ledger), step.status, t, ledger)
    {
      ghost var start := ledger;
      ok := Advance(step, t);
      if ok {
        Arrival(config, start, ledger, step, t);
        SafePoint(step, t);
      }
    }

    // The work of a pass up to its route: contract, reduced step, safe point.
    method Reach(step: Step, t: Turn) returns (ok: bool)
      requires Tracking()
      modifies this`log, this`ledger, this`request
      ensures Still(old(request), request)
      ensures ok <==> Decided(old(ledger), step)
      ensures ok <==> Recorded(config, old(request), old(ledger), step, t).Some?
      ensures Tracking() && Grows(old(log), log) && Carries(old(log), old(ledger), log, ledger)
      ensures !ok ==> ledger == Promoted(old(request), old(ledger), step.status)
      ensures ok ==> ledger == Worked(config, old(request), old(ledger), step, t) && OpenPass(log, ledger.iteration)
      ensures ok ==> Arrives(config, old(ledger), step.status, t, ledger)
    {
      Promote(step);
      ok := TakeStep(step, t);
    }

    // The route of a pass that began with `first` and `start`.
    method FollowRoute(status: StepStatus, t: Turn, ghost first: seq<Entry>, ghost start: Ledger)
      returns (exit: Option<Exit>)
      requires Tracking() && OpenPass(log, ledger.iteration) && Grows(first, log) && Carries(first, start, log, ledger)
      requires Reaches(config, status, ledger, t) ==> ledger.phase == Verify && ledger.status == Verifying
      modifies this`log, this`ledger
      ensures Carries(first, start, log, ledger)
      ensures ledger.iteration == old(ledger.iteration) && ledger.reviewed == old(ledger.reviewed)
      ensures exit.None? ==> Tracking() && Grows(first, log)
      ensures exit.Some? ==> exit.value in {TaskComplete, StepBlocked, Raised}
      ensures exit.Some? ==> Ended(exit.value, first, log, Kept(log, ledger))
      ensures RouteOutcome(config, old(ledger), status, t, exit, ledger)
      ensures exit == Some(TaskComplete) <==>
        && Reaches(config, status, old(ledger), t) && t.passed && !Pending(config, t.pendingAtFence)
        && Accepts(first, FinishedKey, TaskFinished(t.report))
    {
      ghost var middle, reached := log, ledger;
      VerifiedIff(config, ledger, status, t);
      StoredGrows(first, middle, FinishedKey);
      exit := Dispatch(status, t);
      CarriesOn(first, start, middle, reached, log, ledger);
      if exit.Some? {
        EndedSince(exit.value, first, middle, log, Kept(log, ledger));
      }
    }

    // One pass after the model's step is settled as work.
    method Work(step: Step, t: Turn) returns (exit: Option<Exit>)
      requires Tracking()
      modifies this`log, this`ledger, this`request
      ensures Still(old(request), request)
      ensures Carries(old(log), old(ledger), log, ledger)
      ensures ledger.iteration == old(ledger.iteration) + (if Decided(old(ledger), step) then 1 else 0)
      ensures old(ledger.reviewed) ==> ledger.reviewed
      ensures exit.None? ==> Tracking() && Grows(old(log), log) && Decided(old(ledger), step)
      ensures exit.Some? ==> exit.value in {TaskComplete, StepBlocked, Raised}
      ensures exit.Some? ==> Ended(exit.value, old(log), log, Kept(log, ledger))
      ensures WorkOutcome(config, old(request), old(ledger), step, t, exit, ledger)
      ensures exit == Some(TaskComplete) <==>
        && Decided(old(ledger), step) && Finishes(config, step.status, old(ledger.reviewed), t)
        && Accepts(old(log), FinishedKey, TaskFinished(t.report))
    {
      ghost var first, start := log, ledger;
      var ok := Reach(step, t);
      if ok {
        exit := FollowRoute(step.status, t, first, start);
      } else {
        exit := Some(Raised);
      }
    }

    // A pass whose input budget is reserved.
    method PassReserved(t: Turn) returns (exit: Option<Exit>)
      requires Tracking()
      modifies this`log, this`ledger, this`request
      ensures Still(old(request), request)
      ensures Carries(old(log), old(ledger), log, ledger) && (old(ledger.reviewed) ==> ledger.reviewed)
      ensures old(ledger.iteration) <= ledger.iteration <= old(ledger.iteration) + 1
      ensures exit.None? ==> Tracking() && Grows(old(log), log) && ledger.iteration == old(ledger.iteration) + 1
      ensures exit.Some? ==> exit.value in {AnswerGiven, TaskComplete, StepBlocked, Raised}
      ensures exit.Some? ==> Ended(exit.value, old(log), log, Kept(log, ledger))
      ensures PassOutcome(config, old(request), old(ledger), Settle(config, old(request), t), t, exit, ledger)
      ensures exit == Some(TaskComplete) <==>
        && PastEveryGate(config, old(request), old(ledger), t)
        && Accepts(old(log), FinishedKey, TaskFinished(t.report))
      ensures exit == Some(AnswerGiven) <==> OnlyTalked(config, old(request), t)
      ensures exit == Some(AnswerGiven) ==> request == old(request)
    {
      AnswersIff(config, request, t);
      FinishedIff(config, request, ledger, t);
      var settled := Hear(t);
      match settled
      case Broken => exit := Some(Raised);
      case Answering(_) =>
        GiveAnswer();
        exit := Some(AnswerGiven);
      case Working(step) =>
        exit := Work(step, t);
    }

    method Pass(t: Turn) returns (exit: Option<Exit>)
      requires Tracking()
      modifies this`log, this`ledger, this`request, this`reserved
      ensures Still(old(request), request)
      ensures Carries(old(log), old(ledger), log, ledger) && (old(ledger.reviewed) ==> ledger.reviewed)
      ensures old(ledger.iteration) <= ledger.iteration <= old(ledger.iteration) + 1
      ensures exit.None? ==> Tracking() && Grows(old(log), log) && ledger.iteration == old(ledger.iteration) + 1
      ensures exit.Some? ==> exit.value != OutOfIterations && Ended(exit.value, old(log), log, Kept(log, ledger))
      ensures reserved == old(reserved) + if Affordable(config, old(reserved), t)
                                          then config.staticTokens + t.dynamicTokens else 0
      ensures Affordable(config, old(reserved), t) ==>
        Decides(config, old(request), old(ledger), t, exit, ledger)
      ensures !Affordable(config, old(reserved), t) ==>
        exit in {Some(BudgetSpent), Some(Raised)} && ledger == old(ledger)
      ensures exit == Some(TaskComplete)
              <==> PastEveryGate(config, old(request), old(ledger), t)
                   && Accepts(old(log), FinishedKey, TaskFinished(t.report))
                   && old(reserved) + config.staticTokens + t.dynamicTokens <= config.budget
      ensures exit == Some(AnswerGiven)
              <==> OnlyTalked(config, old(request), t)
                   && old(reserved) + config.staticTokens + t.dynamicTokens <= config.budget
      ensures exit == Some(AnswerGiven) ==> request == old(request)
    {
      var projected := config.staticTokens + t.dynamicTokens;
      var ok, used := Reserve(projected, config.budget);
      if ok {
        ghost var r, l := request, ledger;
        exit := PassReserved(t);
        PassDecides(config, r, l, t, exit, ledger);
      } else {
        var stopped := StopOverBudget(used, projected);
        exit := Some(stopped);
      }
    }

    // The run that began with `first` has stopped in this turn.
    ghost predicate StopsAt(exit: Exit, first: seq<Entry>, t: Turn)
      reads this
    {
      && exit != OutOfIterations && Ended(exit, first, log, Kept(log, ledger))
      && Earned(config, request, exit, t, ledger)
    }

    // One more pass of a run that began with `first`, `start` and `paid`.
    method NextPass(t: Turn, ghost first: seq<Entry>, ghost start: Ledger, ghost paid: nat) returns (exit: Option<Exit>)
      requires Tracking() && Grows(first, log) && Carries(first, start, log, ledger)
      requires paid <= reserved <= Max(paid, config.budget)
      modifies this`log, this`ledger, this`request, this`reserved
      ensures Still(old(request), request)
      ensures Carries(first, start, log, ledger) && paid <= reserved <= Max(paid, config.budget)
      ensures exit.None? ==> Tracking() && Grows(first, log) && ledger.iteration == old(ledger.iteration) + 1
      ensures exit.Some? ==> StopsAt(exit.value, first, t)
    {
      ghost var before, now := log, ledger;
      exit := Pass(t);
      CarriesOn(first, start, before, now, log, ledger);
      if exit.Some? {
        EndedSince(exit.value, first, before, log, Kept(log, ledger));
      }
    }

    // Between two passes of a run that began with `first`, `start`, `paid` and `asked`.
    ghost predicate UnderWay(first: seq<Entry>, start: Ledger, paid: nat, asked: Request, passes: nat)
      reads this
    {
      && Still(asked, request) && Tracking() && Grows(first, log) && Carries(first, start, log, ledger)
      && passes == ledger.iteration - start.iteration && ledger.iteration <= Max(config.maxIterations, start.iteration)
      && paid <= reserved <= Max(paid, config.budget)
    }

    // The loop: it stops at an exit, or when the iterations are used up.
    method Passes(turns: nat -> Turn) returns (exit: Option<Exit>, passes: nat)
      requires Tracking()
      modifies this`log, this`ledger, this`request, this`reserved
      ensures Still(old(request), request)
      ensures Carries(old(log), old(ledger), log, ledger)
      ensures passes <= Max(config.maxIterations - old(ledger.iteration), 0)
      ensures old(reserved) <= reserved <= Max(old(reserved), config.budget)
      ensures exit.Some? ==> passes > 0 && StopsAt(exit.value, old(log), turns(passes - 1))
      ensures exit.None? ==> Tracking() && Grows(old(log), log)
      ensures exit.None? ==> ledger.iteration == Max(config.maxIterations, old(ledger.iteration))
      ensures exit.None? && passes > 0 ==> old(ledger.iteration) < config.maxIterations
    {
      ghost var first, start, paid, asked := log, ledger, reserved, request;
      passes := 0;
      while ledger.iteration < config.maxIterations
        invariant UnderWay(first, start, paid, asked, passes)
        decreases config.maxIterations - ledger.iteration
      {
        ghost var before := request;
        exit := NextPass(turns(passes), first, start, paid);
        StillTwice(asked, before, request);
        passes := passes + 1;
        if exit.Some? {
          return;
        }
      }
      exit := None;
    }

    // The passes of a run from any ledger its log tracks: they end, within their iterations and their budget, and leave
    // the log as the exit promises. Completion is reported only past every gate.
    method Orchestrate(turns: nat -> Turn) returns (exit: Exit, passes: nat)
      requires Tracking()
      modifies this`log, this`ledger, this`request, this`reserved
      ensures Still(old(request), request)
      ensures Carries(old(log), old(ledger), log, ledger) && Ended(exit, old(log), log, Kept(log, ledger))
      ensures passes <= Max(config.maxIterations - old(ledger.iteration), 0)
      ensures old(reserved) <= reserved <= Max(old(reserved), config.budget)
      ensures exit in {TaskComplete, AnswerGiven} ==>
        passes > 0 && Earned(config, request, exit, turns(passes - 1), ledger)
      ensures exit == OutOfIterations ==> ledger.iteration >= config.maxIterations
      ensures exit == OutOfIterations && passes > 0 ==> Stored(old(log), LimitKey).None?
    {
      var stopped;
      stopped, passes := Passes(turns);
      if stopped.Some? {
        return stopped.value, passes;
      }
      if passes > 0 {
        LimitTwice(old(log), Kept(old(log), old(ledger)), config.maxIterations);
      }
      exit := StopAtLimit(old(log), old(ledger));
    }

    // `first` and `start` are log and ledger at the start of the run.
    method StopAtLimit(ghost first: seq<Entry>, ghost start: Ledger) returns (exit: Exit)
      requires Tracking() && ledger.iteration >= config.maxIterations
      requires Grows(first, log) && Carries(first, start, log, ledger)
      modifies this`log
      ensures Carries(first, start, log, ledger) && Ended(exit, first, log, Kept(log, ledger))
      ensures exit == if Accepts(first, LimitKey, TaskBlocked(LimitReached(config.maxIterations))) then OutOfIterations
                      else Raised
    {
      var reason := LimitReached(config.maxIterations);
      StoredGrows(first, log, LimitKey);
      ghost var before := log;
      var ok := AppendBlock(LimitKey, reason);
      CarriesOn(first, start, before, ledger, log, ledger);
      exit := if ok then OutOfIterations else Raised;
    }

    method Open()
      requires Good(log)
      modifies this`log, this`ledger, this`request
      ensures Still(old(request), request)
      ensures InSync() && log == Opened(old(log), old(request)) && Grows(old(log), log)
      ensures old(log) != [] ==> log == old(log)
      ensures old(log) == [] ==> Begins(old(request), ledger) && log == [Entry(CreatedKey, TaskCreated(ledger))]
    {
      if log != [] {
        Restore();
      } else {
        Create();
      }
    }

    method Restore()
      requires Good(log) && log != []
      modifies this`ledger, this`request
      ensures Still(old(request), request)
      ensures InSync()
    {
      GoodPrefix(log, |log|);
      assert log[..|log|] == log;
      ledger := Replay(log).value;
      if ledger.coding && request.auto {
        request := CodingRequest(request.(acceptance := ledger.acceptance));
      }
    }

    method Create()
      requires log == []
      modifies this`log, this`ledger
      ensures InSync() && log == [Entry(CreatedKey, TaskCreated(InitialLedger(request)))]
      ensures ledger == InitialLedger(request) && Begins(request, ledger)
    {
      ledger := InitialLedger(request);
      FirstEntryGood(ledger);
      var created := Append(CreatedKey, TaskCreated(ledger));
    }

    // Restore the ledger, or create it, and note a workspace that moved since the latest checkpoint.
    method Initialize(checkpoint: Option<Checkpoint>, current: string) returns (ok: bool)
      requires Good(log)
      modifies this`log, this`ledger, this`request
      ensures Still(old(request), request)
      ensures Good(log) && log != [] && Grows(old(log), log)
      ensures var start := Opened(old(log), old(request));
              && (ok <==> Reopens(start, checkpoint, current))
              && (ok ==> Tracking() && log == Initialized(start, checkpoint, current))
              && (ok ==> (InSync() <==> !DropsReconciliation(start, checkpoint, current)))
      ensures Prepared(old(log), checkpoint, current, ok, log, ledger)
    {
      Open();
      if checkpoint.Some? && checkpoint.value.fingerprint != current {
        ok := Reconcile(checkpoint.value, current);
        return;
      }
      ok := true;
    }

    method Reconcile(checkpoint: Checkpoint, current: string) returns (ok: bool)
      requires InSync() && checkpoint.fingerprint != current
      modifies this`log, this`ledger
      ensures Good(log) && Grows(old(log), log)
      ensures ok <==> Reopens(old(log), Some(checkpoint), current)
      ensures ok ==> Tracking() && log == Initialized(old(log), Some(checkpoint), current)
      ensures ok ==> (InSync() <==> !DropsReconciliation(old(log), Some(checkpoint), current))
      ensures ok ==> ledger.nextAction == Some(Fixed(ReconcileWorkspace)) && HasKey(log, ReconcileSeen(current))
                     && HasKey(log, ReconcileLedger(current))
    {
      NotingFacts(log, ledger, checkpoint, current);
      ok := NoteWorkspace(checkpoint, current);
      if ok {
        ghost var seen, l := log, ledger;
        ok := NoteReconciliation(current);
        PutHasKey(old(log), ReconcileSeen(current), Moved(checkpoint), log);
        PutHasKey(seen, ReconcileLedger(current), ReconcilingPatch(l), log);
      }
    }

    method NoteWorkspace(checkpoint: Checkpoint, current: string) returns (ok: bool)
      requires InSync()
      modifies this`log
      ensures ok == Accepts(old(log), ReconcileSeen(current), Moved(checkpoint))
      ensures log == Put(old(log), ReconcileSeen(current), Moved(checkpoint)) && Grows(old(log), log) && InSync()
    {
      if Stored(log, ReconcileSeen(current)).None? {
        SeenGood(log, ledger, checkpoint, current, log + [Entry(ReconcileSeen(current), Moved(checkpoint))]);
      }
      ok := Append(ReconcileSeen(current), Moved(checkpoint));
    }

    // previous = ledger; ledger = ledger with the reconciling action; append the patch, which may already be stored.
    method NoteReconciliation(current: string) returns (ok: bool)
      requires InSync()
      modifies this`log, this`ledger
      ensures Good(log) && Grows(old(log), log)
      ensures log == Put(old(log), ReconcileLedger(current), ReconcilingPatch(old(ledger)))
      ensures ok <==> Accepts(old(log), ReconcileLedger(current), ReconcilingPatch(old(ledger)))
      ensures ok ==> Tracking()
      ensures ok ==> ledger.nextAction == Some(Fixed(ReconcileWorkspace))
      ensures ok ==> (InSync() <==> Stored(old(log), ReconcileLedger(current)).None?
                                    || old(ledger).nextAction == Some(Fixed(ReconcileWorkspace)))
    {
      var patch := ReconcilingPatch(ledger);
      NotedTracks(log, ledger, current, Put(log, ReconcileLedger(current), patch));
      ok := Append(ReconcileLedger(current), patch);
      if ok {
        ledger := Reconciling(ledger);
      }
    }

    // The passes, counted from the log `first` of before the initialisation.
    method Proceed(turns: nat -> Turn, ghost first: seq<Entry>) returns (exit: Exit, passes: nat)
      requires Tracking() && Grows(first, log)
      modifies this`log, this`ledger, this`request, this`reserved
      ensures Still(old(request), request)
      ensures old(InSync()) ==> Kept(log, ledger) == ledger
      ensures Concludes(config, request, turns, exit, passes, first, log, ledger)
      ensures old(reserved) <= reserved <= Max(old(reserved), config.budget)
    {
      ghost var before := log;
      exit, passes := Orchestrate(turns);
      EndedSince(exit, first, before, log, Kept(log, ledger));
    }

    // A whole run over any replayable log, whatever the workspace and the model do: initialisation raises, or the
    // passes end, and the log replays again. What the run held exactly it still holds exactly, so a log that ends
    // without the ledger's next action began with a dropped reconciliation.
    method Run(checkpoint: Option<Checkpoint>, current: string, turns: nat -> Turn) returns (exit: Exit, passes: nat)
      requires Good(log)
      modifies this`log, this`ledger, this`request, this`reserved
      ensures Still(old(request), request)
      ensures Concludes(config, request, turns, exit, passes, old(log), log, ledger)
      ensures old(reserved) <= reserved <= Max(old(reserved), config.budget)
      ensures var start := Opened(old(log), old(request));
              && (!Reopens(start, checkpoint, current) ==> exit == Raised && passes == 0)
              && (Reopens(start, checkpoint, current) && !DropsReconciliation(start, checkpoint, current) ==>
                    Kept(log, ledger) == ledger)
    {
      var ok := Initialize(checkpoint, current);
      if !ok {
        return Raised, 0;
      }
      exit, passes := Proceed(turns, old(log));
    }
  }

  datatype Checkpoint = Checkpoint(id: string, fingerprint: string)

  // The workspace is not the one of the checkpoint.
  function Moved(checkpoint: Checkpoint): Body { WorkspaceInitialized(checkpoint.id, checkpoint.fingerprint) }

  // The log once the task exists.
  function Opened(log: seq<Entry>, r: Request): seq<Entry> {
    if log != [] then log else [Entry(CreatedKey, TaskCreated(InitialLedger(r)))]
  }

  function Reconciling(l: Ledger): Ledger { l.(nextAction := Some(Fixed(ReconcileWorkspace))) }

  function ReconcilingPatch(l: Ledger): Body { Patched(Diff(l, Reconciling(l))) }

  // The log once the run is initialised.
  function Initialized(log: seq<Entry>, checkpoint: Option<Checkpoint>, current: string): seq<Entry> {
    if checkpoint.None? || checkpoint.value.fingerprint == current || Replay(log).None? then log
    else
      Put(Put(log, ReconcileSeen(current), Moved(checkpoint.value)), ReconcileLedger(current),
          ReconcilingPatch(Replay(log).value))
  }

  // The entry of a reduced step.
  function StepEntry(l: Ledger, l': Ledger): Entry { Entry(AgentStep(l'.iteration), Patched(Diff(l, l'))) }

  // Initialisation succeeds: no reconciliation, or one whose two entries are new or already stored as they are.
  predicate Reopens(log: seq<Entry>, checkpoint: Option<Checkpoint>, current: string) {
    checkpoint.Some? && checkpoint.value.fingerprint != current && Replay(log).Some? ==>
      var l := Replay(log).value;
      && Accepts(log, ReconcileSeen(current), Moved(checkpoint.value))
      && Accepts(log, ReconcileLedger(current), ReconcilingPatch(l))
  }

  // The workspace is again at a state once reconciled, and the model has since chosen another next action.
  predicate DropsReconciliation(log: seq<Entry>, checkpoint: Option<Checkpoint>, current: string) {
    && checkpoint.Some? && checkpoint.value.fingerprint != current && Replay(log).Some?
    && Stored(log, ReconcileLedger(current)).Some?
    && Replay(log).value.nextAction != Some(Fixed(ReconcileWorkspace))
  }

  // Noting the workspace does not touch the key of the ledger's patch.
  lemma NotingFacts(log: seq<Entry>, l: Ledger, checkpoint: Checkpoint, current: string)
    requires log != [] && Replay(log) == Some(l) && checkpoint.fingerprint != current
    ensures var seen := Put(log, ReconcileSeen(current), Moved(checkpoint));
            && (Reopens(log, Some(checkpoint), current) <==>
                  && Accepts(log, ReconcileSeen(current), Moved(checkpoint))
                  && Accepts(seen, ReconcileLedger(current), ReconcilingPatch(l)))
            && Initialized(log, Some(checkpoint), current) == Put(seen, ReconcileLedger(current), ReconcilingPatch(l))
            && (DropsReconciliation(log, Some(checkpoint), current) <==>
                  Stored(seen, ReconcileLedger(current)).Some? && l.nextAction != Some(Fixed(ReconcileWorkspace)))
  {
    StoredPut(log, ReconcileSeen(current), Moved(checkpoint), ReconcileLedger(current));
  }

  // What a run that completed or gave an answer saw in its last turn.
  ghost predicate Earned(c: Config, r: Request, exit: Exit, t: Turn, l: Ledger) {
    && (exit == AnswerGiven ==> OnlyTalked(c, r, t))
    && (exit == TaskComplete ==>
          && t.passed && (c.steering && c.boundary ==> !t.pendingAtSafePoint && !t.pendingAtFence)
          && (t.required || !t.sameAtReview ==> l.reviewed))
  }

  lemma FirstEntryGood(l: Ledger)
    ensures var log := [Entry(CreatedKey, TaskCreated(l))]; Good(log) && Replay(log) == Some(l)
  {
    var log := [Entry(CreatedKey, TaskCreated(l))];
    assert log[..|log| - 1] == [] && Good(log[..|log| - 1]);
    assert Replay(log[..|log| - 1]).None?;
    assert Shape(log);
  }

  lemma {:induction false} StoredPut(log: seq<Entry>, key: Key, body: Body, other: Key)
    requires key != other
    ensures Stored(Put(log, key, body), other) == Stored(log, other)
  {
    if Stored(log, key).None? {
      StoredTail(log, log + [Entry(key, body)], other);
    }
  }

  // A limit on record was already reached, so a run that still makes passes has another limit.
  lemma LimitTwice(log: seq<Entry>, l: Ledger, max: nat)
    requires Good(log) && Replay(log) == Some(l) && l.iteration < max
    ensures Stored(log, LimitKey).Some? ==> !Accepts(log, LimitKey, TaskBlocked(LimitReached(max)))
  {
    if Stored(log, LimitKey).Some? {
      assert Witnessed(Entry(LimitKey, Stored(log, LimitKey).value), l);
    }
  }

  // Over all runs of a task: the review is inserted at most once, and the ledger remembers it from then on.
  lemma ReviewOnce(log: seq<Entry>, k: nat, n: nat)
    requires Good(log) && k < n <= |log| && log[k].key == ReviewKey
    ensures Replay(log[..n]).Some? && Replay(log[..n]).value.reviewed
    ensures forall j :: 0 <= j < |log| && log[j].key == ReviewKey ==> j == k
  {
    GoodPrefix(log, n);
    assert log[..n][k] in log[..n];
    assert Witnessed(log[..n][k], Replay(log[..n]).value);
  }

  // ---------------------------------------------------------------- what runs leave in the log

  lemma GoodSnoc(log: seq<Entry>, e: Entry, l: Ledger, l': Ledger, longer: seq<Entry>)
    requires Good(log) && log != [] && Replay(log) == Some(l) && Stored(log, e.key).None?
    requires Reduce(Some(l), e.body) == Some(l') && Advances(l, l') && Witnessed(e, l') && longer == log + [e]
    ensures Good(longer) && Replay(longer) == Some(l')
  {
    AppendGood(log, e, l, l');
  }

  lemma StepGood(log: seq<Entry>, l: Ledger, l': Ledger, longer: seq<Entry>)
    requires Good(log) && log != [] && Replay(log) == Some(l) && longer == log + [StepEntry(l, l')]
    requires l'.iteration == l.iteration + 1 && Advances(l, l')
    ensures Good(longer) && Replay(longer) == Some(l')
  {
    NextPassFresh(log, l);
    OverlayDiff(l, l');
    PatchGood(log, AgentStep(l'.iteration), l, l', Diff(l, l'));
  }

  // Every new entry of a good log is found under its key.
  lemma LastStored(log: seq<Entry>, e: Entry, longer: seq<Entry>)
    requires Good(longer) && longer == log + [e]
    ensures Stored(longer, e.key) == Some(e.body)
    ensures forall key :: Stored(log, key).Some? ==> Stored(longer, key) == Stored(log, key)
  {
    StoredIn(longer, longer[|log|]);
    forall key | Stored(log, key).Some? ensures Stored(longer, key) == Stored(log, key) {
      StoredIn(longer, Entry(key, Stored(log, key).value));
    }
  }

  // The log of a new task whose workspace has moved since its first checkpoint.
  function ReconciledLog(r: Request, checkpoint: Checkpoint, current: string): seq<Entry> {
    [Entry(CreatedKey, TaskCreated(InitialLedger(r))),
     Entry(ReconcileSeen(current), Moved(checkpoint)),
     Entry(ReconcileLedger(current), ReconcilingPatch(InitialLedger(r)))]
  }

  lemma ReconciledGood(r: Request, checkpoint: Checkpoint, current: string)
    requires checkpoint.fingerprint != current
    ensures var log := ReconciledLog(r, checkpoint, current);
            && Good(log) && Replay(log) == Some(Reconciling(InitialLedger(r)))
            && log == Initialized(Opened([], r), Some(checkpoint), current)
            && Stored(log, ReconcileSeen(current)) == Some(log[1].body)
            && Stored(log, ReconcileLedger(current)) == Some(log[2].body)
  {
    var log := ReconciledLog(r, checkpoint, current);
    var l := InitialLedger(r);
    var first, second := [log[0]], [log[0], log[1]];
    FirstEntryGood(l);
    SeenGood(first, l, checkpoint, current, second);
    NotedGood(second, l, current, log);
    LastStored(first, log[1], second);
    LastStored(second, log[2], log);
  }

  // A run that dies after noting the moved workspace and before its first step can never start again there: the patch
  // to note is now empty, and its key holds another.
  lemma ReconciledRunCannotStart(r: Request, checkpoint: Checkpoint, current: string)
    requires checkpoint.fingerprint != current
    ensures var log := Initialized(Opened([], r), Some(checkpoint), current);
            Good(log) && !Reopens(log, Some(checkpoint), current)
  {
    ReconciledGood(r, checkpoint, current);
  }

  // The same run after one step that names its next action, dying before the next checkpoint: reopened at the same
  // workspace state, it goes on with a ledger its log does not hold.
  lemma DroppedReconciliation(c: Config, r: Request, checkpoint: Checkpoint, current: string, step: Step, t: Turn)
    requires checkpoint.fingerprint != current && "" !in step.decisions && !(Requests(step.status) && r.auto)
    requires Nonempty(step.nextAction) && step.nextAction != Some(Fixed(ReconcileWorkspace))
    ensures var l := Reconciling(InitialLedger(r));
            Recorded(c, r, l, step, t).Some?
            && var log := Initialized(Opened([], r), Some(checkpoint), current)
                          + [StepEntry(l, Recorded(c, r, l, step, t).value)];
            && Good(log) && Reopens(log, Some(checkpoint), current)
            && DropsReconciliation(log, Some(checkpoint), current)
  {
    var before := ReconciledLog(r, checkpoint, current);
    var l := Reconciling(InitialLedger(r));
    ReconciledGood(r, checkpoint, current);
    StepFacts(l, step, t.modified, t.seen, c.historyLimit);
    var l' := Recorded(c, r, l, step, t).value;
    var log := before + [StepEntry(l, l')];
    StepGood(before, l, l', log);
    LastStored(before, StepEntry(l, l'), log);
    DropsWhen(log, InitialLedger(r), l', checkpoint, current);
  }

  lemma DropsWhen(log: seq<Entry>, l: Ledger, l': Ledger, checkpoint: Checkpoint, current: string)
    requires Replay(log) == Some(l') && checkpoint.fingerprint != current
    requires Stored(log, ReconcileSeen(current)) == Some(Moved(checkpoint))
    requires Stored(log, ReconcileLedger(current)) == Some(ReconcilingPatch(l))
    requires Some(Fixed(ReconcileWorkspace)) !in {l.nextAction, l'.nextAction}
    ensures Reopens(log, Some(checkpoint), current) && DropsReconciliation(log, Some(checkpoint), current)
  {
    assert ReconcilingPatch(l) == ReconcilingPatch(l');
  }

  // When a run can be reopened at a moved workspace: each of the two keys is new, or holds what is to be noted now,
  // and that is an empty patch exactly when the ledger already asks for reconciliation.
  lemma ReopensIff(log: seq<Entry>, l: Ledger, checkpoint: Checkpoint, current: string)
    requires Good(log) && Replay(log) == Some(l) && checkpoint.fingerprint != current
    ensures var seen, noted := Stored(log, ReconcileSeen(current)), Stored(log, ReconcileLedger(current));
            Reopens(log, Some(checkpoint), current) <==>
            && (seen.Some? ==> seen.value == Moved(checkpoint))
            && (noted.Some? ==> (noted.value == Patched(NO_CHANGE) <==>
                                   l.nextAction == Some(Fixed(ReconcileWorkspace))))
  {
    var noted := Stored(log, ReconcileLedger(current));
    if noted.Some? {
      assert Witnessed(Entry(ReconcileLedger(current), noted.value), l);
    }
  }

  // A pass that works through to a verification that fails, and the ledger it records for its step.
  ghost predicate Fails(c: Config, r: Request, l: Ledger, step: Step, t: Turn, l': Ledger) {
    && Settle(c, r, t) == Working(step) && Recorded(c, r, l, step, t) == Some(l')
    && Requests(step.status) && !Pending(c, t.pendingAtSafePoint) && !Effects(t) && !t.passed
  }

  lemma FailsOn(c: Config, r: Request, l: Ledger, step: Step, t: Turn, l': Ledger)
    requires !r.auto && Fails(c, r, l, step, t, l')
    ensures RouteOf(c, Worked(c, r, l, step, t), step.status, t) == Verified
    ensures Dispatched(c, Worked(c, r, l, step, t), step.status, t) == AfterFailure(l', t)
    ensures l'.iteration == l.iteration + 1 && Advances(l, l')
  {
    StepFacts(l, step, t.modified, t.seen, c.historyLimit);
  }

  function FailureEntry(l: Ledger, t: Turn): Entry {
    Entry(VerifyFailed(l.iteration), Patched(Diff(l, AfterFailure(l, t))))
  }

  lemma FailureGood(log: seq<Entry>, l: Ledger, t: Turn, longer: seq<Entry>)
    requires Good(log) && log != [] && Replay(log) == Some(l) && longer == log + [FailureEntry(l, t)]
    requires forall e :: e in log ==> e.key != VerifyFailed(l.iteration)
    ensures Good(longer) && Replay(longer) == Some(AfterFailure(l, t))
  {
    OverlayDiff(l, AfterFailure(l, t));
    PatchGood(log, VerifyFailed(l.iteration), l, AfterFailure(l, t), Diff(l, AfterFailure(l, t)));
  }

  // What such a pass leaves in the log.
  lemma FailedPass(before: seq<Entry>, l: Ledger, l': Ledger, t: Turn, log: seq<Entry>)
    requires Good(before) && before != [] && Replay(before) == Some(l)
    requires l'.iteration == l.iteration + 1 && Advances(l, l')
    requires log == before + [StepEntry(l, l')] + [FailureEntry(l', t)]
    ensures Good(log) && Replay(log) == Some(AfterFailure(l', t)) && Stored(log, LimitKey) == Stored(before, LimitKey)
  {
    var middle := before + [StepEntry(l, l')];
    StepGood(before, l, l', middle);
    assert forall e :: e in middle ==> e.key != VerifyFailed(l'.iteration) by {
      NextPassFresh(before, l);
    }
    FailureGood(middle, l', t, log);
    StoredTail(before, log, LimitKey);
  }

  // The entry of an exit, and the step of the run after it.
  lemma AfterExit(before: seq<Entry>, key: Key, body: Body, l: Ledger, l': Ledger, l'': Ledger, log: seq<Entry>)
    requires Good(before) && before != [] && Replay(before) == Some(l) && Stored(before, key).None?
    requires Reduce(Some(l), body) == Some(l') && Advances(l, l') && Witnessed(Entry(key, body), l')
    requires l''.iteration == l'.iteration + 1 && Advances(l', l'')
    requires log == before + [Entry(key, body)] + [StepEntry(l', l'')]
    ensures Good(log) && Replay(log) == Some(l'') && Stored(log, key) == Some(body)
  {
    var middle := before + [Entry(key, body)];
    GoodSnoc(before, Entry(key, body), l, l', middle);
    LastStored(before, Entry(key, body), middle);
    StepGood(middle, l', l'', log);
    LastStored(middle, StepEntry(l', l''), log);
  }

  lemma FirstStep(r: Request, l': Ledger, log: seq<Entry>)
    requires l'.iteration == 1 && Advances(InitialLedger(r), l')
    requires log == Opened([], r) + [StepEntry(InitialLedger(r), l')]
    ensures Good(log) && Replay(log) == Some(l')
    ensures Stored(log, FinishedKey).None? && Stored(log, LimitKey).None?
  {
    FirstEntryGood(InitialLedger(r));
    StepGood(Opened([], r), InitialLedger(r), l', log);
  }

  // What a recorded step that promotes nothing is.
  lemma RecordedFacts(c: Config, r: Request, l: Ledger, step: Step, t: Turn)
    requires !(Requests(step.status) && r.auto)
    ensures Recorded(c, r, l, step, t).Some? <==> Decided(l, step)
    ensures Recorded(c, r, l, step, t).Some? ==>
      StepsTo(l, step, Recorded(c, r, l, step, t).value) && Advances(l, Recorded(c, r, l, step, t).value)
  {
    StepFacts(l, step, t.modified, t.seen, c.historyLimit);
  }

  lemma VerifyingStep(c: Config, r: Request, l: Ledger, step: Step, t: Turn, l': Ledger)
    requires !r.auto && Requests(step.status) && Recorded(c, r, l, step, t) == Some(l')
    ensures l'.iteration == l.iteration + 1 && Advances(l, l') && l'.status == Verifying
  {
    RecordedFacts(c, r, l, step, t);
  }

  // An automatic task's first step asks for verification and brings an empty decision: the coding contract is recorded,
  // then the reduction raises.
  lemma EmptyDecisionRaises(c: Config, r: Request, step: Step, t: Turn)
    requires r.auto && Requests(step.status) && "" in step.decisions
    ensures Promoted(r, InitialLedger(r), step.status).coding && Recorded(c, r, InitialLedger(r), step, t).None?
  {
    RaisesOnEmpty(Promoted(r, InitialLedger(r), step.status), step);
  }

  function Complete(l: Ledger): Ledger { l.(status := Completed, phase := CompletePhase) }

  lemma CompletedLog(r: Request, report: string, l: Ledger, l': Ledger, log: seq<Entry>)
    requires l.iteration == 1 && Advances(InitialLedger(r), l) && l'.iteration == 2 && Advances(Complete(l), l')
    requires log == Opened([], r) + [StepEntry(InitialLedger(r), l)] + [Entry(FinishedKey, TaskFinished(report))]
                    + [StepEntry(Complete(l), l')]
    ensures Good(log) && Replay(log) == Some(l') && Stored(log, FinishedKey) == Some(TaskFinished(report))
  {
    var before := Opened([], r) + [StepEntry(InitialLedger(r), l)];
    FirstStep(r, l, before);
    AfterExit(before, FinishedKey, TaskFinished(report), l, Complete(l), l', log);
  }

  // A task that completed and then works on to a second completion: that is refused under another report, and under
  // the same it leaves a log that still says verifying.
  lemma SecondCompletion(
    c: Config, r: Request, first: Step, t: Turn, l: Ledger, second: Step, t': Turn, l': Ledger, log: seq<Entry>)
    requires !r.auto && Finishes(c, first.status, false, t) && Finishes(c, second.status, l.reviewed, t')
    requires Recorded(c, r, InitialLedger(r), first, t) == Some(l)
    requires Recorded(c, r, Complete(l), second, t') == Some(l')
    requires log == Opened([], r) + [StepEntry(InitialLedger(r), l)]
                    + [Entry(FinishedKey, TaskFinished(t.report))] + [StepEntry(Complete(l), l')]
    ensures Good(log) && Replay(log) == Some(l') && l'.status == Verifying
    ensures Accepts(log, FinishedKey, TaskFinished(t'.report)) <==> t'.report == t.report
    ensures Put(log, FinishedKey, TaskFinished(t'.report)) == log
  {
    VerifyingStep(c, r, InitialLedger(r), first, t, l);
    VerifyingStep(c, r, Complete(l), second, t', l');
    CompletedLog(r, t.report, l, l', log);
  }

  // The entry of the first limit, which the task then lives with.
  lemma LimitLog(before: seq<Entry>, l: Ledger, log: seq<Entry>)
    requires Good(before) && before != [] && Replay(before) == Some(l) && Stored(before, LimitKey).None?
    requires l.iteration == 1 && log == before + [Entry(LimitKey, TaskBlocked(LimitReached(1)))]
    ensures Good(log) && Replay(log) == Some(Block(l, LimitReached(1)))
    ensures Stored(log, LimitKey) == Some(TaskBlocked(LimitReached(1)))
  {
    GoodSnoc(before, log[|before|], l, Block(l, LimitReached(1)), log);
    LastStored(before, log[|before|], log);
  }

  // The log of a task whose one iteration ends in a failed verification.
  function LimitedLog(r: Request, l: Ledger, t: Turn): seq<Entry> {
    Opened([], r) + [StepEntry(InitialLedger(r), l)] + [FailureEntry(l, t)]
    + [Entry(LimitKey, TaskBlocked(LimitReached(1)))]
  }

  lemma FirstLimit(c: Config, r: Request, first: Step, t: Turn, l: Ledger)
    requires !r.auto && Fails(c, r, InitialLedger(r), first, t, l)
    ensures var log := LimitedLog(r, l, t);
            && Good(log) && log != [] && Replay(log) == Some(Block(AfterFailure(l, t), LimitReached(1)))
            && Stored(log, LimitKey) == Some(TaskBlocked(LimitReached(1))) && l.iteration == 1
  {
    var failed := Opened([], r) + [StepEntry(InitialLedger(r), l)] + [FailureEntry(l, t)];
    FailsOn(c, r, InitialLedger(r), first, t, l);
    FirstFailure(r, l, t, failed);
    LimitLog(failed, AfterFailure(l, t), LimitedLog(r, l, t));
  }

  lemma FirstFailure(r: Request, l: Ledger, t: Turn, log: seq<Entry>)
    requires l.iteration == 1 && Advances(InitialLedger(r), l)
    requires log == Opened([], r) + [StepEntry(InitialLedger(r), l)] + [FailureEntry(l, t)]
    ensures Good(log) && log != [] && Replay(log) == Some(AfterFailure(l, t)) && Stored(log, LimitKey).None?
  {
    FirstEntryGood(InitialLedger(r));
    FailedPass(Opened([], r), InitialLedger(r), l, t, log);
  }

  // A task whose one iteration ends in a failed verification and which, reopened with two, fails again: the run raises.
  lemma SecondLimit(
    c: Config, r: Request, first: Step, t: Turn, l: Ledger, limited: Ledger, second: Step, t': Turn, l': Ledger,
    log: seq<Entry>)
    requires !r.auto && Fails(c, r, InitialLedger(r), first, t, l)
    requires limited == Block(AfterFailure(l, t), LimitReached(1)) && Fails(c, r, limited, second, t', l')
    requires log == LimitedLog(r, l, t) + [StepEntry(limited, l')] + [FailureEntry(l', t')]
    ensures Dispatched(c, Worked(c, r, InitialLedger(r), first, t), first.status, t) == AfterFailure(l, t)
    ensures Dispatched(c, Worked(c, r, limited, second, t'), second.status, t') == AfterFailure(l', t')
    ensures Good(log) && Replay(log) == Some(AfterFailure(l', t')) && l'.iteration == 2
    ensures !Accepts(log, LimitKey, TaskBlocked(LimitReached(2)))
  {
    FailsOn(c, r, InitialLedger(r), first, t, l);
    FailsOn(c, r, limited, second, t', l');
    FirstLimit(c, r, first, t, l);
    FailedPass(LimitedLog(r, l, t), limited, l', t', log);
  }

  lemma VerifiedIff(c: Config, l: Ledger, status: StepStatus, t: Turn)
    ensures RouteOf(c, l, status, t) == Verified <==> Reaches(c, status, l, t)
  {
  }

  // A step that asks for verification reaches it unless steering waits or a review was just inserted.
  predicate Reaches(c: Config, status: StepStatus, l: Ledger, t: Turn) {
    Requests(status) && !Pending(c, t.pendingAtSafePoint) && l.phase != Review
  }

  // Whether a settled step ends in completion once it reaches verification.
  predicate Finishes(c: Config, status: StepStatus, reviewed: bool, t: Turn) {
    && Requests(status) && !Pending(c, t.pendingAtSafePoint) && !Pending(c, t.pendingAtFence)
    && (Effects(t) ==> reviewed) && t.passed
  }
}
