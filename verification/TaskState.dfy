// harness/state/events.py, harness/orchestration/core.py, harness/state/progress.py and `_ledger_patch`: the durable
// task ledger, its patches, and the keyed event log it is replayed from.
module TaskState {
  import opened Wrappers

  datatype Phase = Understand | Plan | Implement | Verify | Review | BlockedPhase | CompletePhase

  datatype Status = Active | NeedsInput | Verifying | FailedStatus | Completed | Answered

  // The workflow's fixed sentences are named, not spelled; a model's own words are free text.
  datatype Phrase =
    | AnswerDirectly | InspectRepository | ApplySteering | Rethink | ReconcileWorkspace | TryToFalsify
    | ResumeTerminal | StoppedEarly | RetrySchema | NoValidResult | AgentBlocked | HumanNeeded

  datatype Text = Fixed(phrase: Phrase) | Free(text: string)

  predicate Nonempty(t: Option<Text>) { t.Some? && (t.value.Fixed? || t.value.text != "") }

  // Rendered block reasons; distinct numbers render to distinct text.
  datatype Reason = Said(text: Text) | LimitReached(limit: nat) | OverBudget(used: nat, projected: nat, allowed: nat)

  datatype Ledger = Ledger(
    coding: bool, acceptance: seq<string>, phase: Phase, status: Status, nextAction: Option<Text>, iteration: nat,
    reviewed: bool, progress: seq<string>, decisions: seq<string>, constraints: seq<string>, questions: seq<Text>,
    blockers: seq<Reason>, filesRead: seq<string>, filesModified: seq<string>, noProgress: nat,
    fingerprints: seq<string>)

  // ---------------------------------------------------------------- patches

  // The `set_fields` dictionary: an entry per changed field.
  datatype Patch = Patch(
    coding: Option<bool>, acceptance: Option<seq<string>>, phase: Option<Phase>, status: Option<Status>,
    nextAction: Option<Option<Text>>, iteration: Option<nat>, reviewed: Option<bool>, progress: Option<seq<string>>,
    decisions: Option<seq<string>>, constraints: Option<seq<string>>, questions: Option<seq<Text>>,
    blockers: Option<seq<Reason>>, filesRead: Option<seq<string>>, filesModified: Option<seq<string>>,
    noProgress: Option<nat>, fingerprints: Option<seq<string>>)

  function Changed<T(==)>(before: T, after: T): Option<T> { if before == after then None else Some(after) }

  function OrKeep<T>(change: Option<T>, current: T): T { if change.Some? then change.value else current }

  function Diff(a: Ledger, b: Ledger): Patch {
    Patch(Changed(a.coding, b.coding), Changed(a.acceptance, b.acceptance), Changed(a.phase, b.phase),
          Changed(a.status, b.status), Changed(a.nextAction, b.nextAction), Changed(a.iteration, b.iteration),
          Changed(a.reviewed, b.reviewed), Changed(a.progress, b.progress), Changed(a.decisions, b.decisions),
          Changed(a.constraints, b.constraints), Changed(a.questions, b.questions), Changed(a.blockers, b.blockers),
          Changed(a.filesRead, b.filesRead), Changed(a.filesModified, b.filesModified),
          Changed(a.noProgress, b.noProgress), Changed(a.fingerprints, b.fingerprints))
  }

  function Overlay(l: Ledger, p: Patch): Ledger {
    Ledger(OrKeep(p.coding, l.coding), OrKeep(p.acceptance, l.acceptance), OrKeep(p.phase, l.phase),
           OrKeep(p.status, l.status), OrKeep(p.nextAction, l.nextAction), OrKeep(p.iteration, l.iteration),
           OrKeep(p.reviewed, l.reviewed), OrKeep(p.progress, l.progress), OrKeep(p.decisions, l.decisions),
           OrKeep(p.constraints, l.constraints), OrKeep(p.questions, l.questions), OrKeep(p.blockers, l.blockers),
           OrKeep(p.filesRead, l.filesRead), OrKeep(p.filesModified, l.filesModified),
           OrKeep(p.noProgress, l.noProgress), OrKeep(p.fingerprints, l.fingerprints))
  }

  // ---------------------------------------------------------------- the keyed log

  datatype Key =
    | CreatedKey | ReconcileSeen(fingerprint: string) | ReconcileLedger(fingerprint: string)
    | Answer(iteration: nat) | Contract | AgentStep(iteration: nat) | SafePoint(iteration: nat) | ReviewKey
    | Replan(iteration: nat) | VerifyFailed(iteration: nat) | Fence(iteration: nat)
    | BudgetKey(iteration: nat) | BlockedKey(iteration: nat) | LimitKey | FinishedKey

  datatype Body =
    | TaskCreated(ledger: Ledger) | Patched(patch: Patch) | TaskBlocked(reason: Reason) | TaskFinished(report: string)
    | WorkspaceInitialized(checkpoint: string, expected: string)

  datatype Entry = Entry(key: Key, body: Body)

  // The operational append: a known key with the same body is already there, with another body it raises.
  function Stored(log: seq<Entry>, key: Key): (r: Option<Body>)
    ensures r.Some? ==> Entry(key, r.value) in log
    ensures r.None? ==> forall e :: e in log ==> e.key != key
  {
    if log == [] then None
    else if log[0].key == key then Some(log[0].body)
    else Stored(log[1..], key)
  }

  predicate Accepts(log: seq<Entry>, key: Key, body: Body) {
    Stored(log, key) in {None, Some(body)}
  }

  function Put(log: seq<Entry>, key: Key, body: Body): seq<Entry> {
    if Stored(log, key).Some? then log else log + [Entry(key, body)]
  }

  function Block(l: Ledger, reason: Reason): Ledger {
    l.(status := NeedsInput, phase := BlockedPhase, blockers := l.blockers + [reason])
  }

  // reduce_event
  function Reduce(l: Option<Ledger>, body: Body): Option<Ledger> {
    match body
    case TaskCreated(created) => if l.None? then Some(created) else None
    case _ =>
      if l.None? then None
      else
        match body
        case Patched(p) => Some(Overlay(l.value, p))
        case TaskBlocked(reason) => Some(Block(l.value, reason))
        case TaskFinished(_) => Some(l.value.(status := Completed, phase := CompletePhase))
        case _ => l
  }

  // rebuild_ledger
  function Replay(log: seq<Entry>): Option<Ledger> {
    if log == [] then None else Reduce(Replay(log[..|log| - 1]), log[|log| - 1].body)
  }

  // ---------------------------------------------------------------- steps of the model, and their reduction

  datatype StepStatus = AnswerStep | ContinueStep | VerifyStep | BlockedStep | DoneStep

  datatype Step = Step(
    status: StepStatus, message: string, progress: seq<string>, nextAction: Option<Text>, decisions: seq<string>,
    questions: seq<Text>, constraints: seq<string>, focus: seq<string>, claims: bool)

  // list(dict.fromkeys(items))
  function Unique<T(==,!new)>(items: seq<T>): (r: seq<T>)
    ensures forall x :: x in r <==> x in items
    ensures forall i, j :: 0 <= i < j < |r| ==> r[i] != r[j]
    ensures |r| <= |items|
  {
    if items == [] then []
    else
      var n := |items| - 1;
      assert items == items[..n] + [items[n]];
      var rest := Unique(items[..n]);
      if items[n] in rest then rest else rest + [items[n]]
  }

  function Unknown(items: seq<string>, known: seq<string>): seq<string> {
    if items == [] then []
    else
      var n := |items| - 1;
      Unknown(items[..n], known) + (if items[n] in known then [] else [items[n]])
  }

  function AsReasons(texts: seq<Text>): seq<Reason> {
    seq(|texts|, i requires 0 <= i < |texts| => Said(texts[i]))
  }

  function NextActionAfter(l: Ledger, step: Step): Option<Text> {
    if Nonempty(step.nextAction) then step.nextAction else l.nextAction
  }

  // What a blocked step gives as its reasons.
  function ReasonTexts(step: Step): seq<Text> {
    if step.questions != [] then step.questions
    else [if Nonempty(step.nextAction) then step.nextAction.value else Fixed(AgentBlocked)]
  }

  // The data of the next ledger, before it is validated.
  function Reduced(l: Ledger, step: Step): Ledger {
    var l1 := l.(
      iteration := l.iteration + 1, nextAction := NextActionAfter(l, step),
      progress := Unique(l.progress + step.progress),
      decisions := l.decisions + Unknown(Unique(step.decisions), l.decisions),
      constraints := Unique(l.constraints + step.constraints), questions := Unique(l.questions + step.questions));
    match step.status
    case BlockedStep =>
      l1.(phase := BlockedPhase, status := NeedsInput, blockers := Unique(l.blockers + AsReasons(ReasonTexts(step))))
    case VerifyStep | DoneStep => l1.(phase := Verify, status := Verifying)
    case _ => l1.(phase := Implement, status := Active)
  }

  // reduce_agent_step: a decision needs a summary, so an empty one makes the validation raise.
  function ReduceStep(l: Ledger, step: Step): Option<Ledger> {
    var reduced := Reduced(l, step);
    if "" in reduced.decisions then None else Some(reduced)
  }

  lemma {:induction false} UnknownMembers(items: seq<string>, known: seq<string>)
    ensures forall x :: x in Unknown(items, known) <==> x in items && x !in known
  {
    if items != [] {
      SplitLast(items);
      UnknownMembers(items[..|items| - 1], known);
    }
  }

  predicate ReasonOf(step: Step, r: Reason) {
    step.status.BlockedStep? && r.Said? && r.text in ReasonTexts(step)
  }

  // The notes of one ledger are those of another and a step's.
  ghost predicate AddsNotes(l: Ledger, step: Step, l': Ledger) {
    && (forall x :: x in l'.progress <==> x in l.progress || x in step.progress)
    && (forall x :: x in l'.decisions <==> x in l.decisions || x in step.decisions)
    && (forall x :: x in l'.constraints <==> x in l.constraints || x in step.constraints)
    && (forall x :: x in l'.questions <==> x in l.questions || x in step.questions)
    && (forall r :: r in l'.blockers <==> r in l.blockers || ReasonOf(step, r))
  }

  // Reducing a step raises exactly when it brings an empty decision to a ledger without one; otherwise it loses no
  // note and adds exactly the step's own.
  lemma NotesAccumulate(l: Ledger, step: Step)
    ensures ReduceStep(l, step).Some? <==> "" !in l.decisions && "" !in step.decisions
    ensures ReduceStep(l, step).Some? ==> AddsNotes(l, step, ReduceStep(l, step).value)
  {
    RaisesOnEmpty(l, step);
    DecisionsAre(l, step);
    forall r ensures r in Reduced(l, step).blockers <==> r in l.blockers || ReasonOf(step, r) {
      BlockersAre(l, step, r);
    }
  }

  lemma DecisionsAre(l: Ledger, step: Step)
    ensures forall x :: x in Reduced(l, step).decisions <==> x in l.decisions || x in step.decisions
  {
    UnknownMembers(Unique(step.decisions), l.decisions);
  }

  lemma RaisesOnEmpty(l: Ledger, step: Step)
    ensures ReduceStep(l, step).Some? <==> "" !in l.decisions && "" !in step.decisions
  {
    DecisionsAre(l, step);
  }

  lemma BlockersAre(l: Ledger, step: Step, r: Reason)
    ensures r in Reduced(l, step).blockers <==> r in l.blockers || ReasonOf(step, r)
  {
    if step.status.BlockedStep? {
      var texts := ReasonTexts(step);
      var reasons := AsReasons(texts);
      assert forall k :: 0 <= k < |texts| ==> reasons[k] == Said(texts[k]) && texts[k] in texts;
      assert r in l.blockers + reasons <==> r in l.blockers || r in reasons;
    }
  }

  // Python's items[-limit:], which keeps everything when limit is 0.
  function LastItems(items: seq<string>, limit: nat): seq<string> {
    if limit == 0 || |items| <= limit then items else items[|items| - limit..]
  }

  function RegisterActions(l: Ledger, seen: seq<string>, limit: nat): Ledger {
    if seen == [] then l.(noProgress := l.noProgress + 1)
    else
      l.(noProgress := if forall f :: f in seen ==> f in l.fingerprints then l.noProgress + 1 else 0,
         fingerprints := LastItems(l.fingerprints + seen, limit))
  }

  function Observe(l: Ledger, step: Step, modified: seq<string>, seen: seq<string>, limit: nat): Ledger {
    RegisterActions(l.(filesModified := modified, filesRead := Unique(l.filesRead + step.focus)), seen, limit)
  }

  // The ledger the workflow records for a step, or none when its reduction raises.
  function Observed(l: Ledger, step: Step, modified: seq<string>, seen: seq<string>, limit: nat): Option<Ledger> {
    var reduced := ReduceStep(l, step);
    if reduced.None? then None else Some(Observe(reduced.value, step, modified, seen, limit))
  }

  // One pass of the model raises the iteration by one and touches neither contract nor review mark; it raises exactly
  // on an empty decision.
  lemma StepFacts(l: Ledger, step: Step, modified: seq<string>, seen: seq<string>, limit: nat)
    ensures var after := Observed(l, step, modified, seen, limit);
            && (after.Some? <==> "" !in l.decisions && "" !in step.decisions)
            && (after.Some? ==> StepsTo(l, step, after.value) && "" !in after.value.decisions)
  {
    RaisesOnEmpty(l, step);
    ReducedFacts(l, step);
  }

  ghost predicate StepsTo(l: Ledger, step: Step, l': Ledger) {
    && l'.iteration == l.iteration + 1 && l'.reviewed == l.reviewed && l'.coding == l.coding
    && l'.acceptance == l.acceptance && l'.phase != Review && l'.nextAction == NextActionAfter(l, step)
    && (step.status in {VerifyStep, DoneStep} ==> l'.phase == Verify && l'.status == Verifying)
    && (step.status == BlockedStep ==> l'.phase == BlockedPhase && l'.status == NeedsInput)
    && (step.status in {AnswerStep, ContinueStep} ==>
          l'.phase == Implement && l'.status == Active && l'.blockers == l.blockers)
  }

  lemma ReducedFacts(l: Ledger, step: Step)
    ensures StepsTo(l, step, Reduced(l, step))
  {
  }

  // The latest actions are remembered, up to the limit.
  ghost predicate Remembers(all: seq<string>, limit: nat, kept: seq<string>) {
    exists forgotten: seq<string> ::
      forgotten + kept == all && if limit == 0 || |all| <= limit then forgotten == [] else |kept| == limit
  }

  // What the environment showed is counted: a batch that did nothing new is one more without progress.
  ghost predicate Counts(l: Ledger, modified: seq<string>, seen: seq<string>, limit: nat, l': Ledger) {
    && l'.noProgress == (if forall f :: f in seen ==> f in l.fingerprints then l.noProgress + 1 else 0)
    && l'.filesModified == modified
    && if seen == [] then l'.fingerprints == l.fingerprints
       else Remembers(l.fingerprints + seen, limit, l'.fingerprints)
  }

  lemma LastItemsAre(items: seq<string>, limit: nat)
    ensures Remembers(items, limit, LastItems(items, limit))
  {
    var n := |items| - |LastItems(items, limit)|;
    assert items[..n] + LastItems(items, limit) == items;
  }

  lemma ObservedCounts(l: Ledger, step: Step, modified: seq<string>, seen: seq<string>, limit: nat)
    requires Observed(l, step, modified, seen, limit).Some?
    ensures var l' := Observed(l, step, modified, seen, limit).value;
            && Counts(l, modified, seen, limit, l')
            && forall x :: x in l'.filesRead <==> x in l.filesRead || x in step.focus
  {
    LastItemsAre(l.fingerprints + seen, limit);
  }

  lemma ObservedNotes(l: Ledger, step: Step, modified: seq<string>, seen: seq<string>, limit: nat)
    requires Observed(l, step, modified, seen, limit).Some?
    ensures AddsNotes(l, step, Observed(l, step, modified, seen, limit).value)
  {
    NotesAccumulate(l, step);
    SameNotes(l, step, ReduceStep(l, step).value, Observed(l, step, modified, seen, limit).value);
  }

  lemma SameNotes(l: Ledger, step: Step, a: Ledger, b: Ledger)
    requires AddsNotes(l, step, a)
    requires a.progress == b.progress && a.decisions == b.decisions && a.constraints == b.constraints
    requires a.questions == b.questions && a.blockers == b.blockers
    ensures AddsNotes(l, step, b)
  {
  }

  // The one counterexample review a task gets.
  function ReviewLedger(l: Ledger): (r: Ledger)
    ensures Advances(l, r) && r.iteration == l.iteration && r.reviewed && r.phase == Review && r.coding == l.coding
  {
    l.(phase := Review, status := Active, reviewed := true, nextAction := Some(Fixed(TryToFalsify)))
  }

  function ResumeForSteering(l: Ledger): Ledger {
    l.(phase := Implement, status := Active, nextAction := Some(Fixed(ApplySteering)))
  }

  function ReplanLedger(l: Ledger): Ledger {
    l.(phase := Plan, status := Active, nextAction := Some(Fixed(Rethink)))
  }

  datatype Route = GoOn | Replanned | Stopped | Verified

  function ProgressRoute(l: Ledger, replanAt: nat, humanAt: nat): Route {
    if l.status == NeedsInput || (l.blockers != [] && !Nonempty(l.nextAction)) then Stopped
    else if l.status == Verifying || l.phase == Verify then Verified
    else if l.noProgress >= humanAt then Stopped
    else if l.noProgress >= replanAt then Replanned
    else GoOn
  }

  function DecideRoute(l: Ledger, status: StepStatus, pending: bool, replanAt: nat, humanAt: nat): Route {
    if pending then GoOn
    else if status.BlockedStep? then Stopped
    else if status in {VerifyStep, DoneStep} then Verified
    else
      var r := ProgressRoute(l, replanAt, humanAt);
      if r == Verified then GoOn else r
  }

  // ---------------------------------------------------------------- what every log keeps

  // What a key used within a pass says about the ledger from then on.
  predicate Claimed(key: Key, l: Ledger) {
    match key
    case Answer(n) => n <= l.iteration
    case AgentStep(n) => n <= l.iteration
    case SafePoint(n) => n <= l.iteration
    case Replan(n) => n <= l.iteration
    case VerifyFailed(n) => n <= l.iteration
    case Fence(n) => n <= l.iteration
    case BudgetKey(n) => n <= l.iteration
    case BlockedKey(n) => n <= l.iteration
    case Contract => l.coding
    case ReviewKey => l.reviewed
    case _ => false
  }

  predicate Witnessed(e: Entry, l: Ledger) {
    match e.key
    case CreatedKey => e.body.TaskCreated?
    case LimitKey =>
      e.body.TaskBlocked? && e.body.reason.LimitReached? && e.body.reason.limit <= l.iteration
    case ReconcileLedger(_) => e.body.Patched? && Reconciles(e.body.patch)
    case ReconcileSeen(_) => e.body.WorkspaceInitialized?
    case FinishedKey => e.body.TaskFinished?
    case _ => Claimed(e.key, l)
  }

  const NO_CHANGE :=
    Patch(None, None, None, None, None, None, None, None, None, None, None, None, None, None, None, None)

  // A reconciliation changes the next action or nothing.
  predicate Reconciles(p: Patch) {
    p in {NO_CHANGE, NO_CHANGE.(nextAction := Some(Some(Fixed(ReconcileWorkspace))))}
  }

  ghost predicate Shape(log: seq<Entry>) {
    && Replay(log).Some?
    && (forall e :: e in log ==> Witnessed(e, Replay(log).value))
    && (forall i, j :: 0 <= i < j < |log| ==> log[i].key != log[j].key)
  }

  // Every prefix is well shaped, so a crash between any two appends leaves a log that replays.
  ghost predicate Good(log: seq<Entry>) {
    log == [] || (Good(log[..|log| - 1]) && Shape(log))
  }

  // Iterations only grow; the coding contract and the review mark are never withdrawn.
  predicate Advances(l: Ledger, l': Ledger) {
    l.iteration <= l'.iteration && (l.coding ==> l'.coding) && (l.reviewed ==> l'.reviewed)
  }

  lemma ReplaySnoc(log: seq<Entry>, e: Entry)
    ensures Replay(log + [e]) == Reduce(Replay(log), e.body)
  {
    assert (log + [e])[..|log|] == log;
  }

  lemma AppendGood(log: seq<Entry>, e: Entry, l: Ledger, l': Ledger)
    requires Good(log) && log != [] && Replay(log) == Some(l) && Stored(log, e.key).None?
    requires Reduce(Some(l), e.body) == Some(l') && Advances(l, l') && Witnessed(e, l')
    ensures Good(log + [e]) && Replay(log + [e]) == Some(l')
  {
    ReplaySnoc(log, e);
    assert (log + [e])[..|log|] == log;
    forall x | x in log + [e] ensures Witnessed(x, l') {
      if x in log {
        assert Witnessed(x, l);
      }
    }
  }

  // The patch of a change, overlaid on what it changed, gives the change.
  lemma OverlayDiff(l: Ledger, l': Ledger)
    ensures Overlay(l, Diff(l, l')) == l'
  {
  }

  // So the patch entry keeps log and ledger together.
  lemma PatchGood(log: seq<Entry>, key: Key, l: Ledger, l': Ledger, p: Patch)
    requires Good(log) && log != [] && Replay(log) == Some(l) && Stored(log, key).None?
    requires Advances(l, l') && Claimed(key, l') && Overlay(l, p) == l'
    ensures Good(log + [Entry(key, Patched(p))])
    ensures Replay(log + [Entry(key, Patched(p))]) == Some(l')
  {
    AppendGood(log, Entry(key, Patched(p)), l, l');
  }

  lemma StoredIn(log: seq<Entry>, e: Entry)
    requires e in log && forall i, j :: 0 <= i < j < |log| ==> log[i].key != log[j].key
    ensures Stored(log, e.key) == Some(e.body)
  {
    var body := Stored(log, e.key);
    assert Entry(e.key, body.value) in log;
  }

  lemma {:induction false} GoodPrefix(log: seq<Entry>, n: nat)
    requires Good(log) && n <= |log|
    ensures Good(log[..n]) && (n > 0 ==> Replay(log[..n]).Some?)
  {
    if n < |log| {
      GoodPrefix(log[..|log| - 1], n);
      assert log[..|log| - 1][..n] == log[..n];
    } else {
      assert log[..n] == log;
    }
  }
}
