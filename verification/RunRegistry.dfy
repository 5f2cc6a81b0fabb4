// harness/server/registry.py: runs and their public event logs, one SQLite transaction per operation.
// SQL selections are functions over the tables; the Python loops and rollbacks are in the class below.
module RunRegistry {
  import opened Wrappers

  datatype Status = Queued | Running | Completed | Cancelled | Failed {
    predicate Active() { Queued? || Running? }

    function Rank(): nat {
      match this
      case Queued => 0
      case Running => 1
      case _ => 2
    }

    predicate MayBecome(next: Status) {
      match this
      case Queued => next.Running? || next.Cancelled? || next.Failed?
      case Running => next.Completed? || next.Cancelled? || next.Failed?
      case _ => false
    }
  }

  type Open = s: Status | s.Active() witness Queued

  type Terminal = s: Status | !s.Active() witness Completed

  datatype Run = Run(
    runId: string, requestId: string, idempotencyKey: string, threadId: string, userId: string,
    sessionId: string, invocationId: string, input: string, metadata: map<string, string>,
    status: Status, error: Option<string>, createdAt: nat)

  datatype AgEvent = AgEvent(runId: Option<string>, content: string)

  datatype Envelope = Envelope(
    sequence: nat, runId: string, sessionId: string, invocationId: string, durable: bool, event: AgEvent)

  datatype EventRow = EventRow(runId: string, sequence: nat, sourceKey: Option<string>, envelope: Envelope)

  datatype Outcome = Outcome(envelope: Envelope, created: bool)

  datatype Page = Page(events: seq<Envelope>, highWater: nat, hasMore: bool)

  datatype Tables = Tables(runs: seq<Run>, events: seq<EventRow>)

  datatype StoreError =
    | InvalidArgument | UnknownRun | KeyReused | ActiveWork | ForeignConversation | IntegrityError
    | ErrorNotAllowed | CompareAndSetConflict | ErrorChanged | InvalidTransition | ReplayConflict

  datatype CreateArgs = CreateArgs(
    requestId: string, idempotencyKey: string, threadId: string, userId: string, input: string,
    metadata: map<string, string>, sessionId: Option<string>, invocationId: Option<string>, now: nat)

  datatype AppendArgs = AppendArgs(
    runId: string, events: seq<AgEvent>, durable: bool,
    sessionId: Option<string>, invocationId: Option<string>, sourceKeys: Option<seq<Option<string>>>)

  datatype TerminalArgs = TerminalArgs(
    runId: string, status: Terminal, event: AgEvent, sourceKey: string, expected: Open, error: Option<string>)

  // ---------------------------------------------------------------- queries

  // Preimage of the SHA-256 run id; the digest is taken to be injective.
  function RunIdOf(userId: string, idempotencyKey: string): string {
    "run\0" + userId + "\0" + idempotencyKey
  }

  // Position of the first row with this primary key, or the number of rows.
  function IndexOf(runs: seq<Run>, runId: string): (i: nat)
    ensures i <= |runs|
    ensures i < |runs| ==> runs[i].runId == runId
    ensures forall j :: 0 <= j < i ==> runs[j].runId != runId
  {
    if runs == [] then 0
    else if runs[0].runId == runId then 0
    else 1 + IndexOf(runs[1..], runId)
  }

  function FindRun(runs: seq<Run>, runId: string): Option<Run> {
    var i := IndexOf(runs, runId);
    if i < |runs| then Some(runs[i]) else None
  }

  // Position of the row holding (user, idempotency key), or the number of rows.
  function IndexOfKey(runs: seq<Run>, userId: string, key: string): (i: nat)
    ensures i <= |runs|
    ensures i < |runs| ==> runs[i].userId == userId && runs[i].idempotencyKey == key
    ensures forall j :: 0 <= j < i ==> runs[j].userId != userId || runs[j].idempotencyKey != key
  {
    if runs == [] then 0
    else if runs[0].userId == userId && runs[0].idempotencyKey == key then 0
    else 1 + IndexOfKey(runs[1..], userId, key)
  }

  predicate InConversation(run: Run, userId: string, sessionId: string) {
    run.userId == userId && run.sessionId == sessionId
  }

  predicate HasActive(runs: seq<Run>, userId: string, sessionId: string) {
    exists i :: 0 <= i < |runs| && InConversation(runs[i], userId, sessionId) && runs[i].status.Active()
  }

  // ORDER BY created_at DESC LIMIT 1; SQLite leaves ties open, this takes the earliest row.
  function Latest(runs: seq<Run>, userId: string, sessionId: string): (r: Option<Run>)
    ensures r.Some? <==> exists i :: 0 <= i < |runs| && InConversation(runs[i], userId, sessionId)
    ensures r.Some? ==> r.value in runs && InConversation(r.value, userId, sessionId)
    ensures r.Some? ==> forall i :: 0 <= i < |runs| && InConversation(runs[i], userId, sessionId)
                                    ==> runs[i].createdAt <= r.value.createdAt
  {
    if runs == [] then None
    else
      var rest := Latest(runs[..|runs| - 1], userId, sessionId);
      var last := runs[|runs| - 1];
      if InConversation(last, userId, sessionId) && (rest.None? || rest.value.createdAt < last.createdAt)
      then Some(last) else rest
  }

  // Rows of one run, oldest first.
  function Log(events: seq<EventRow>, runId: string): seq<EventRow> {
    if events == [] then []
    else
      var last := events[|events| - 1];
      Log(events[..|events| - 1], runId) + (if last.runId == runId then [last] else [])
  }

  // COALESCE(MAX(sequence), 0) over one run.
  function MaxSequence(log: seq<EventRow>): (m: nat)
    ensures forall row :: row in log ==> row.sequence <= m
    ensures m == 0 || exists row :: row in log && row.sequence == m
  {
    if log == [] then 0
    else Max(MaxSequence(log[..|log| - 1]), log[|log| - 1].sequence)
  }

  // WHERE run_id=? AND source_key=?
  function FindKey(events: seq<EventRow>, runId: string, key: string): (r: Option<EventRow>)
    ensures r.Some? ==> r.value in events && r.value.runId == runId && r.value.sourceKey == Some(key)
    ensures r.None? ==> forall row :: row in events ==> row.runId != runId || row.sourceKey != Some(key)
  {
    if events == [] then None
    else
      var last := events[|events| - 1];
      if last.runId == runId && last.sourceKey == Some(key) then Some(last)
      else FindKey(events[..|events| - 1], runId, key)
  }

  // sequence>? AND sequence<=? ORDER BY sequence, over rows already in sequence order.
  function Range(log: seq<EventRow>, after: nat, upTo: nat): seq<Envelope> {
    if log == [] then []
    else
      var last := log[|log| - 1];
      Range(log[..|log| - 1], after, upTo)
      + (if after < last.sequence <= upTo then [last.envelope] else [])
  }

  // ---------------------------------------------------------------- transactions

  const WORKSPACE_BINDING := "coding.workspace_identity"
  const HARNESS_BINDING := "coding.harness_implementation"

  predicate SameBindings(a: map<string, string>, b: map<string, string>) {
    Lookup(a, WORKSPACE_BINDING) == Lookup(b, WORKSPACE_BINDING)
    && Lookup(a, HARNESS_BINDING) == Lookup(b, HARNESS_BINDING)
  }

  predicate BoundedId(s: string) { 1 <= |s| <= 256 }

  function Candidate(a: CreateArgs): Run {
    var runId := RunIdOf(a.userId, a.idempotencyKey);
    Run(runId, a.requestId, a.idempotencyKey, a.threadId, a.userId,
        OrElse(a.sessionId, a.threadId), OrElse(a.invocationId, runId), a.input, a.metadata,
        Queued, None, a.now)
  }

  // The Pydantic field bounds of RunRecord (the digest standing for run_id is always 32 characters).
  predicate ValidRecord(run: Run) {
    BoundedId(run.requestId) && BoundedId(run.idempotencyKey) && BoundedId(run.threadId)
    && BoundedId(run.userId) && BoundedId(run.sessionId)
    && (run.invocationId == run.runId || BoundedId(run.invocationId))
    && 1 <= |run.input| <= 50_000
  }

  predicate SameRequest(existing: Run, candidate: Run) {
    existing.threadId == candidate.threadId && existing.sessionId == candidate.sessionId
    && existing.invocationId == candidate.invocationId && existing.input == candidate.input
    && existing.metadata == candidate.metadata
  }

  function CreateRun(t: Tables, a: CreateArgs): (Tables, Result<(Run, bool), StoreError>) {
    var candidate := Candidate(a);
    var known := IndexOfKey(t.runs, a.userId, a.idempotencyKey);
    var prior := Latest(t.runs, a.userId, candidate.sessionId);
    if !ValidRecord(candidate) then (t, Err(InvalidArgument))
    else if known < |t.runs| then
      if SameRequest(t.runs[known], candidate) then (t, Ok((t.runs[known], false))) else (t, Err(KeyReused))
    else if HasActive(t.runs, a.userId, candidate.sessionId) then (t, Err(ActiveWork))
    else if prior.Some? && !SameBindings(prior.value.metadata, candidate.metadata) then (t, Err(ForeignConversation))
    else if FindRun(t.runs, candidate.runId).Some? then (t, Err(IntegrityError))
    else (t.(runs := t.runs + [candidate]), Ok((candidate, true)))
  }

  function UpdateStatus(t: Tables, runId: string, status: Status, error: Option<string>, expected: Option<Status>)
    : (Tables, Result<Run, StoreError>)
  {
    var clipped := ClipError(error);
    var i := IndexOf(t.runs, runId);
    if (status.Active() || status.Completed?) && error.Some? then (t, Err(ErrorNotAllowed))
    else if i == |t.runs| then (t, Err(UnknownRun))
    else
      var row := t.runs[i];
      if expected.Some? && expected.value != row.status then (t, Err(CompareAndSetConflict))
      else if status == row.status then
        if clipped == row.error then (t, Ok(row)) else (t, Err(ErrorChanged))
      else if !row.status.MayBecome(status) then (t, Err(InvalidTransition))
      else
        var updated := row.(status := status, error := clipped);
        (t.(runs := t.runs[i := updated]), Ok(updated))
  }

  function GivenKeys(a: AppendArgs): seq<Option<string>> {
    if a.sourceKeys.Some? then a.sourceKeys.value else seq(|a.events|, i => None)
  }

  // The first stage of append_events_with_outcomes: argument checks that never reach the database.
  function BatchKeys(a: AppendArgs): Result<seq<Option<string>>, StoreError> {
    var keys := GivenKeys(a);
    if |keys| != |a.events| then Err(InvalidArgument)
    else if exists i :: 0 <= i < |keys| && keys[i].Some? && !(1 <= |keys[i].value| <= 512) then Err(InvalidArgument)
    else if exists i, j :: 0 <= i < j < |keys| && keys[i].Some? && keys[i] == keys[j] then Err(InvalidArgument)
    else if exists i :: 0 <= i < |a.events| && a.events[i].runId.Some? && a.events[i].runId.value != a.runId
    then Err(InvalidArgument)
    else Ok(keys)
  }

  // Where the events of a batch belong: the run and the two resolved correlation ids.
  datatype Target = Target(runId: string, sessionId: string, invocationId: string)

  function EnvelopeFor(target: Target, sequence: nat, event: AgEvent): Envelope {
    Envelope(sequence, target.runId, target.sessionId, target.invocationId, true, event)
  }

  predicate Matches(stored: Envelope, target: Target, event: AgEvent) {
    stored.event == event && stored.durable
    && stored.sessionId == target.sessionId && stored.invocationId == target.invocationId
  }

  // One event of a batch against the rows present at that point of the transaction.
  function AppendOne(rows: seq<EventRow>, target: Target, event: AgEvent, key: Option<string>)
    : Result<(seq<EventRow>, Outcome), StoreError>
  {
    var stored := if key.Some? then FindKey(rows, target.runId, key.value) else None;
    if stored.Some? then
      if Matches(stored.value.envelope, target, event) then Ok((rows, Outcome(stored.value.envelope, false)))
      else Err(KeyReused)
    else
      var sequence := |Log(rows, target.runId)| + 1;
      var envelope := EnvelopeFor(target, sequence, event);
      Ok((rows + [EventRow(target.runId, sequence, key, envelope)], Outcome(envelope, true)))
  }

  function AppendBatch(rows: seq<EventRow>, target: Target, events: seq<AgEvent>, keys: seq<Option<string>>)
    : (r: Result<(seq<EventRow>, seq<Outcome>), StoreError>)
    requires |events| == |keys|
    ensures r.Ok? ==> |r.value.1| == |events|
  {
    if events == [] then Ok((rows, []))
    else
      var n := |events| - 1;
      var before := AppendBatch(rows, target, events[..n], keys[..n]);
      if before.Err? then before
      else
        var one := AppendOne(before.value.0, target, events[n], keys[n]);
        if one.Err? then Err(one.error)
        else Ok((one.value.0, before.value.1 + [one.value.1]))
  }

  function TargetOf(a: AppendArgs, run: Run): Target {
    Target(a.runId, OrElse(a.sessionId, run.sessionId), OrElse(a.invocationId, run.invocationId))
  }

  function AppendEvents(t: Tables, a: AppendArgs): (Tables, Result<seq<Outcome>, StoreError>) {
    var run := FindRun(t.runs, a.runId);
    if !a.durable then (t, Err(InvalidArgument))
    else if a.events == [] then (t, Ok([]))
    else if BatchKeys(a).Err? then (t, Err(BatchKeys(a).error))
    else if run.None? then (t, Err(UnknownRun))
    else
      var r := AppendBatch(t.events, TargetOf(a, run.value), a.events, BatchKeys(a).value);
      if r.Err? then (t, Err(r.error)) else (t.(events := r.value.0), Ok(r.value.1))
  }

  function Terminalize(t: Tables, a: TerminalArgs): (Tables, Result<Outcome, StoreError>) {
    var clipped := ClipError(a.error);
    var i := IndexOf(t.runs, a.runId);
    if !(1 <= |a.sourceKey| <= 512) then (t, Err(InvalidArgument))
    else if a.event.runId.Some? && a.event.runId.value != a.runId then (t, Err(InvalidArgument))
    else if a.status.Completed? && a.error.Some? then (t, Err(ErrorNotAllowed))
    else if i == |t.runs| then (t, Err(UnknownRun))
    else
      var row := t.runs[i];
      var stored := FindKey(t.events, a.runId, a.sourceKey);
      if row.status == a.status then
        if row.error == clipped && stored.Some? && stored.value.envelope.event == a.event
        then (t, Ok(Outcome(stored.value.envelope, false)))
        else (t, Err(ReplayConflict))
      else if row.status != a.expected then (t, Err(CompareAndSetConflict))
      else if stored.Some? then (t, Err(KeyReused))
      else
        var sequence := |Log(t.events, a.runId)| + 1;
        var envelope := EnvelopeFor(Target(a.runId, row.sessionId, row.invocationId), sequence, a.event);
        (Tables(t.runs[i := row.(status := a.status, error := clipped)],
                t.events + [EventRow(a.runId, sequence, Some(a.sourceKey), envelope)]),
         Ok(Outcome(envelope, true)))
  }

  function ReplayPage(t: Tables, runId: string, after: int, limit: int, highWater: Option<int>)
    : Result<Page, StoreError>
  {
    if after < 0 || (highWater.Some? && highWater.value < 0) then Err(InvalidArgument)
    else if FindRun(t.runs, runId).None? then Err(UnknownRun)
    else Ok(SelectPage(Log(t.events, runId), after, Max(1, Min(limit, 10_000)), highWater))
  }

  function SelectPage(log: seq<EventRow>, after: nat, bounded: nat, highWater: Option<int>): Page
    requires highWater.Some? ==> highWater.value >= 0
  {
    var observed := MaxSequence(log);
    var effective := if highWater.None? then observed else Min(highWater.value, observed);
    var rows := Range(log, after, effective);
    Page(if |rows| > bounded then rows[..bounded] else rows, effective, |rows| > bounded)
  }

  // ---------------------------------------------------------------- the invariant of every reachable store

  ghost predicate UniqueRuns(runs: seq<Run>) {
    forall i, j :: 0 <= i < j < |runs| ==> runs[i].runId != runs[j].runId
  }

  // A run's id is the digest of its user and key, so a user has at most one run per key.
  ghost predicate NamedByKey(runs: seq<Run>) {
    forall i :: 0 <= i < |runs| ==> runs[i].runId == RunIdOf(runs[i].userId, runs[i].idempotencyKey)
  }

  // At most one queued or running run per (user, session).
  ghost predicate OneActive(runs: seq<Run>) {
    forall i, j :: 0 <= i < j < |runs| && InConversation(runs[j], runs[i].userId, runs[i].sessionId)
                   ==> !(runs[i].status.Active() && runs[j].status.Active())
  }

  ghost predicate OneBinding(runs: seq<Run>) {
    forall i, j :: 0 <= i < j < |runs| && InConversation(runs[j], runs[i].userId, runs[i].sessionId)
                   ==> SameBindings(runs[i].metadata, runs[j].metadata)
  }

  ghost predicate ErrorsOnlyOnFailure(runs: seq<Run>) {
    forall i :: 0 <= i < |runs| && runs[i].error.Some? ==> runs[i].status.Cancelled? || runs[i].status.Failed?
  }

  ghost predicate GaplessLogs(events: seq<EventRow>) {
    forall id: string, k: nat :: k < |Log(events, id)| ==> WellNumbered(Log(events, id)[k], id, k + 1)
  }

  predicate WellNumbered(row: EventRow, id: string, sequence: nat) {
    row.runId == id && row.sequence == sequence && row.envelope.sequence == sequence
    && row.envelope.runId == id && row.envelope.durable
  }

  ghost predicate UniqueKeys(events: seq<EventRow>) {
    forall i, j :: 0 <= i < j < |events| && events[i].runId == events[j].runId && events[i].sourceKey.Some?
                   ==> events[i].sourceKey != events[j].sourceKey
  }

  ghost predicate OwnedEvents(t: Tables) {
    forall row :: row in t.events ==> FindRun(t.runs, row.runId).Some?
  }

  ghost predicate WellFormed(t: Tables) {
    UniqueRuns(t.runs) && NamedByKey(t.runs) && OneActive(t.runs) && OneBinding(t.runs) && ErrorsOnlyOnFailure(t.runs)
    && GaplessLogs(t.events) && UniqueKeys(t.events) && OwnedEvents(t)
  }

  lemma LogSnoc(events: seq<EventRow>, row: EventRow, id: string)
    ensures Log(events + [row], id) == Log(events, id) + (if row.runId == id then [row] else [])
  {
    assert (events + [row])[..|events|] == events;
  }

  lemma {:induction false} LogMembers(events: seq<EventRow>, id: string)
    ensures forall row :: row in Log(events, id) <==> row in events && row.runId == id
  {
    if events != [] {
      LogMembers(events[..|events| - 1], id);
      assert events == events[..|events| - 1] + [events[|events| - 1]];
    }
  }

  lemma GaplessMax(events: seq<EventRow>, id: string)
    requires GaplessLogs(events)
    ensures MaxSequence(Log(events, id)) == |Log(events, id)|
  {
    var log := Log(events, id);
    if log != [] {
      assert WellNumbered(log[|log| - 1], id, |log|);
      assert log[|log| - 1] in log;
    }
    forall row | row in log ensures row.sequence <= |log| {
      var k: nat :| k < |log| && log[k] == row;
      assert WellNumbered(log[k], id, k + 1);
    }
  }

  // Inserting one correctly numbered row under a fresh key keeps the event table well formed.
  lemma InsertKeeps(events: seq<EventRow>, row: EventRow)
    requires GaplessLogs(events) && UniqueKeys(events)
    requires WellNumbered(row, row.runId, |Log(events, row.runId)| + 1)
    requires row.sourceKey.Some? ==> FindKey(events, row.runId, row.sourceKey.value).None?
    ensures GaplessLogs(events + [row]) && UniqueKeys(events + [row])
  {
    forall id: string, k: nat | k < |Log(events + [row], id)|
      ensures WellNumbered(Log(events + [row], id)[k], id, k + 1)
    {
      LogSnoc(events, row, id);
    }
  }

  // ---------------------------------------------------------------- what one batch does

  function Envelopes(log: seq<EventRow>): seq<Envelope> {
    seq(|log|, i requires 0 <= i < |log| => log[i].envelope)
  }

  // The envelopes an append inserted, in batch order.
  function Created(outcomes: seq<Outcome>): seq<Envelope> {
    if outcomes == [] then []
    else
      var last := outcomes[|outcomes| - 1];
      Created(outcomes[..|outcomes| - 1]) + (if last.created then [last.envelope] else [])
  }

  ghost predicate DistinctKeys(keys: seq<Option<string>>) {
    forall i, j :: 0 <= i < j < |keys| && keys[i].Some? ==> keys[i] != keys[j]
  }

  function StoredUnder(rows: seq<EventRow>, runId: string, key: Option<string>): Option<EventRow> {
    if key.Some? then FindKey(rows, runId, key.value) else None
  }

  lemma EnvelopesSnoc(log: seq<EventRow>, row: EventRow)
    ensures Envelopes(log + [row]) == Envelopes(log) + [row.envelope]
  {
  }

  lemma CreatedSnoc(outcomes: seq<Outcome>, last: Outcome)
    ensures Created(outcomes + [last]) == Created(outcomes) + (if last.created then [last.envelope] else [])
  {
    assert (outcomes + [last])[..|outcomes|] == outcomes;
  }

  lemma {:induction false} FindKeyUnique(rows: seq<EventRow>, row: EventRow)
    requires UniqueKeys(rows) && row in rows && row.sourceKey.Some?
    ensures FindKey(rows, row.runId, row.sourceKey.value) == Some(row)
  {
    var found := FindKey(rows, row.runId, row.sourceKey.value);
    var i :| 0 <= i < |rows| && rows[i] == row;
    var j :| 0 <= j < |rows| && rows[j] == found.value;
  }

  // The rows grew by `created`, all of them new rows of one run with the next sequence numbers.
  ghost predicate Grows(rows: seq<EventRow>, rows': seq<EventRow>, runId: string, created: seq<Envelope>) {
    && GaplessLogs(rows') && UniqueKeys(rows') && rows <= rows'
    && (forall k :: |rows| <= k < |rows'| ==> rows'[k].runId == runId)
    && Envelopes(Log(rows', runId)) == Envelopes(Log(rows, runId)) + created
    && (forall id :: id != runId ==> Log(rows', id) == Log(rows, id))
  }

  // The event is stored, under its key when it has one, and this is its envelope.
  ghost predicate StoredAs(rows: seq<EventRow>, target: Target, event: AgEvent, key: Option<string>, e: Envelope) {
    && Matches(e, target, event)
    && (key.Some? ==> exists row :: row in rows && row.runId == target.runId && row.sourceKey == key
                                    && row.envelope == e)
  }

  lemma InsertGrows(rows: seq<EventRow>, row: EventRow)
    requires GaplessLogs(rows) && UniqueKeys(rows)
    requires WellNumbered(row, row.runId, |Log(rows, row.runId)| + 1)
    requires row.sourceKey.Some? ==> FindKey(rows, row.runId, row.sourceKey.value).None?
    ensures Grows(rows, rows + [row], row.runId, [row.envelope])
  {
    InsertKeeps(rows, row);
    forall id ensures Log(rows + [row], id) == Log(rows, id) + (if row.runId == id then [row] else []) {
      LogSnoc(rows, row, id);
    }
    EnvelopesSnoc(Log(rows, row.runId), row);
  }

  lemma OneGrows(rows: seq<EventRow>, target: Target, event: AgEvent, key: Option<string>)
    requires GaplessLogs(rows) && UniqueKeys(rows)
    requires AppendOne(rows, target, event, key).Ok?
    ensures var (rows', outcome) := AppendOne(rows, target, event, key).value;
            Grows(rows, rows', target.runId, if outcome.created then [outcome.envelope] else [])
  {
    var (rows', outcome) := AppendOne(rows, target, event, key).value;
    if outcome.created {
      var row := EventRow(target.runId, |Log(rows, target.runId)| + 1, key, outcome.envelope);
      assert rows' == rows + [row];
      InsertGrows(rows, row);
    } else {
      assert rows' == rows;
      assert Envelopes(Log(rows, target.runId)) + [] == Envelopes(Log(rows, target.runId));
    }
  }

  lemma OneStored(rows: seq<EventRow>, target: Target, event: AgEvent, key: Option<string>)
    requires AppendOne(rows, target, event, key).Ok?
    ensures var (rows', outcome) := AppendOne(rows, target, event, key).value;
            StoredAs(rows', target, event, key, outcome.envelope)
  {
    var (rows', outcome) := AppendOne(rows, target, event, key).value;
    if outcome.created {
      assert rows'[|rows|] in rows';
    }
  }

  lemma GrowsTwice(
    rows: seq<EventRow>, mid: seq<EventRow>, rows': seq<EventRow>, runId: string, a: seq<Envelope>, b: seq<Envelope>)
    requires Grows(rows, mid, runId, a) && Grows(mid, rows', runId, b)
    ensures Grows(rows, rows', runId, a + b)
  {
    assert Envelopes(Log(rows, runId)) + (a + b) == Envelopes(Log(rows, runId)) + a + b;
    forall k | |rows| <= k < |rows'| ensures rows'[k].runId == runId {
      if k < |mid| {
        assert mid[k] == rows'[k];
      }
    }
  }

  // A committed batch: consecutive fresh sequences in batch order, older rows untouched, other runs untouched.
  lemma {:induction false} BatchGrows(
    rows: seq<EventRow>, target: Target, events: seq<AgEvent>, keys: seq<Option<string>>)
    requires |events| == |keys|
    requires GaplessLogs(rows) && UniqueKeys(rows)
    requires AppendBatch(rows, target, events, keys).Ok?
    ensures var (rows', outcomes) := AppendBatch(rows, target, events, keys).value;
            Grows(rows, rows', target.runId, Created(outcomes))
  {
    if events == [] {
      assert Envelopes(Log(rows, target.runId)) + [] == Envelopes(Log(rows, target.runId));
    } else {
      var n := |events| - 1;
      BatchGrows(rows, target, events[..n], keys[..n]);
      var (mid, some) := AppendBatch(rows, target, events[..n], keys[..n]).value;
      OneGrows(mid, target, events[n], keys[n]);
      var (rows', outcome) := AppendOne(mid, target, events[n], keys[n]).value;
      CreatedSnoc(some, outcome);
      GrowsTwice(rows, mid, rows', target.runId, Created(some), if outcome.created then [outcome.envelope] else []);
    }
  }

  // Every event of a committed batch is stored, in batch order, under the key it came with.
  lemma {:induction false} BatchStored(
    rows: seq<EventRow>, target: Target, events: seq<AgEvent>, keys: seq<Option<string>>)
    requires |events| == |keys|
    requires AppendBatch(rows, target, events, keys).Ok?
    ensures var (rows', outcomes) := AppendBatch(rows, target, events, keys).value;
            rows <= rows'
            && forall i :: 0 <= i < |events| ==> StoredAs(rows', target, events[i], keys[i], outcomes[i].envelope)
  {
    if events != [] {
      var n := |events| - 1;
      BatchStored(rows, target, events[..n], keys[..n]);
      var (mid, some) := AppendBatch(rows, target, events[..n], keys[..n]).value;
      OneStored(mid, target, events[n], keys[n]);
      var (rows', outcome) := AppendOne(mid, target, events[n], keys[n]).value;
      forall i | 0 <= i < n ensures StoredAs(rows', target, events[i], keys[i], some[i].envelope) {
        assert StoredAs(mid, target, events[..n][i], keys[..n][i], some[i].envelope);
        if keys[i].Some? {
          var row :| row in mid && row.runId == target.runId && row.sourceKey == keys[i]
                     && row.envelope == some[i].envelope;
          assert row in rows';
        }
      }
    }
  }

  // Keys inserted by the batch itself never shadow a later key of the same batch.
  lemma {:induction false} BatchSeesOldKeys(
    rows: seq<EventRow>, target: Target, events: seq<AgEvent>, keys: seq<Option<string>>, key: Option<string>)
    requires |events| == |keys| && key !in keys && key.Some?
    requires AppendBatch(rows, target, events, keys).Ok?
    ensures StoredUnder(AppendBatch(rows, target, events, keys).value.0, target.runId, key)
            == StoredUnder(rows, target.runId, key)
  {
    if events != [] {
      var n := |events| - 1;
      BatchSeesOldKeys(rows, target, events[..n], keys[..n], key);
      var (mid, some) := AppendBatch(rows, target, events[..n], keys[..n]).value;
      var (rows', outcome) := AppendOne(mid, target, events[n], keys[n]).value;
      if outcome.created {
        assert rows'[..|rows'| - 1] == mid;
      }
    }
  }

  predicate Conflicts(rows: seq<EventRow>, target: Target, event: AgEvent, key: Option<string>) {
    var stored := StoredUnder(rows, target.runId, key);
    stored.Some? && !Matches(stored.value.envelope, target, event)
  }

  // What a batch comes to: refused when some event conflicts with what its key already stored, and otherwise the
  // events created are those whose key, if any, was not stored.
  ghost predicate Decided(
    rows: seq<EventRow>, target: Target, events: seq<AgEvent>, keys: seq<Option<string>>,
    r: Result<(seq<EventRow>, seq<Outcome>), StoreError>)
  {
    && |events| == |keys|
    && (r.Err? <==> exists i :: 0 <= i < |events| && Conflicts(rows, target, events[i], keys[i]))
    && (r.Ok? ==> |r.value.1| == |events| && forall i :: 0 <= i < |events| ==>
          (r.value.1[i].created <==> StoredUnder(rows, target.runId, keys[i]).None?))
  }

  lemma DecidedRefused(
    rows: seq<EventRow>, target: Target, events: seq<AgEvent>, keys: seq<Option<string>>, n: nat,
    r: Result<(seq<EventRow>, seq<Outcome>), StoreError>)
    requires |events| == |keys| == n + 1 && Decided(rows, target, events[..n], keys[..n], r) && r.Err?
    ensures Decided(rows, target, events, keys, r)
  {
    var i :| 0 <= i < n && Conflicts(rows, target, events[..n][i], keys[..n][i]);
    assert Conflicts(rows, target, events[i], keys[i]);
  }

  // One more event, whose key no earlier event of the batch has used.
  lemma DecidedOne(
    rows: seq<EventRow>, target: Target, events: seq<AgEvent>, keys: seq<Option<string>>, n: nat,
    rows': seq<EventRow>, outcomes: seq<Outcome>)
    requires |events| == |keys| == n + 1 && Decided(rows, target, events[..n], keys[..n], Ok((rows', outcomes)))
    requires StoredUnder(rows', target.runId, keys[n]) == StoredUnder(rows, target.runId, keys[n])
    ensures var one := AppendOne(rows', target, events[n], keys[n]);
            Decided(rows, target, events, keys,
                    if one.Err? then Err(one.error) else Ok((one.value.0, outcomes + [one.value.1])))
  {
    forall i | 0 <= i < n
      ensures keys[..n][i] == keys[i] && events[..n][i] == events[i] && !Conflicts(rows, target, events[i], keys[i])
    {
      assert !Conflicts(rows, target, events[..n][i], keys[..n][i]);
    }
  }

  // All or nothing.
  lemma {:induction false} BatchOutcome(
    rows: seq<EventRow>, target: Target, events: seq<AgEvent>, keys: seq<Option<string>>)
    requires |events| == |keys| && DistinctKeys(keys)
    ensures Decided(rows, target, events, keys, AppendBatch(rows, target, events, keys))
  {
    if events != [] {
      var n := |events| - 1;
      BatchOutcome(rows, target, events[..n], keys[..n]);
      var before := AppendBatch(rows, target, events[..n], keys[..n]);
      if before.Ok? {
        if keys[n].Some? {
          BatchSeesOldKeys(rows, target, events[..n], keys[..n], keys[n]);
        }
        DecidedOne(rows, target, events, keys, n, before.value.0, before.value.1);
      } else {
        DecidedRefused(rows, target, events, keys, n, before);
      }
    }
  }

  // ---------------------------------------------------------------- every run of the store

  datatype Op =
    | Create(create: CreateArgs)
    | Update(runId: string, status: Status, error: Option<string>, expected: Option<Status>)
    | Append(append: AppendArgs)
    | Terminal(terminal: TerminalArgs)

  function Apply(t: Tables, op: Op): Tables {
    match op
    case Create(a) => CreateRun(t, a).0
    case Update(id, status, error, expected) => UpdateStatus(t, id, status, error, expected).0
    case Append(a) => AppendEvents(t, a).0
    case Terminal(a) => Terminalize(t, a).0
  }

  function ApplyAll(t: Tables, ops: seq<Op>): Tables
    decreases ops
  {
    if ops == [] then t else ApplyAll(Apply(t, ops[0]), ops[1..])
  }

  // What one run row may turn into: identity fixed, rank never falls, a terminal row is frozen.
  ghost predicate Progressed(before: Run, after: Run) {
    && after == before.(status := after.status, error := after.error)
    && before.status.Rank() <= after.status.Rank()
    && (!before.status.Active() || before.status == after.status ==> after == before)
  }

  // What any later store may look like: stored events stay, runs only progress, new rows come after.
  ghost predicate Later(t: Tables, t': Tables) {
    && t.events <= t'.events
    && |t.runs| <= |t'.runs|
    && forall i :: 0 <= i < |t.runs| ==> Progressed(t.runs[i], t'.runs[i])
  }

  lemma LaterTwice(a: Tables, b: Tables, c: Tables)
    requires Later(a, b) && Later(b, c)
    ensures Later(a, c)
  {
    forall i | 0 <= i < |a.runs| ensures Progressed(a.runs[i], c.runs[i]) {
      assert Progressed(a.runs[i], b.runs[i]) && Progressed(b.runs[i], c.runs[i]);
    }
  }

  lemma FindRunUnique(runs: seq<Run>, i: nat)
    requires UniqueRuns(runs) && i < |runs|
    ensures IndexOf(runs, runs[i].runId) == i && FindRun(runs, runs[i].runId) == Some(runs[i])
  {
    var j := IndexOf(runs, runs[i].runId);
    assert runs[j].runId == runs[i].runId;
  }

  lemma FindRunLater(t: Tables, t': Tables, id: string)
    requires Later(t, t') && UniqueRuns(t'.runs) && FindRun(t.runs, id).Some?
    ensures FindRun(t'.runs, id).Some? && Progressed(FindRun(t.runs, id).value, FindRun(t'.runs, id).value)
  {
    var i := IndexOf(t.runs, id);
    assert Progressed(t.runs[i], t'.runs[i]);
    FindRunUnique(t'.runs, i);
  }

  lemma OwnedLater(t: Tables, t': Tables, id: string)
    requires OwnedEvents(t) && Later(t, t') && UniqueRuns(t'.runs) && FindRun(t.runs, id).Some?
    requires forall k :: |t.events| <= k < |t'.events| ==> t'.events[k].runId == id
    ensures OwnedEvents(t')
  {
    forall row | row in t'.events ensures FindRun(t'.runs, row.runId).Some? {
      var k :| 0 <= k < |t'.events| && t'.events[k] == row;
      if k < |t.events| {
        assert t.events[k] == row && row in t.events;
      }
      FindRunLater(t, t', row.runId);
    }
  }

  lemma CreateKeeps(t: Tables, a: CreateArgs)
    requires WellFormed(t)
    ensures WellFormed(CreateRun(t, a).0) && Later(t, CreateRun(t, a).0)
  {
    var t' := CreateRun(t, a).0;
    if t' != t {
      var candidate := Candidate(a);
      assert t'.runs == t.runs + [candidate];
      CreatedRuns(t, a);
      OwnedSnoc(t, candidate);
    }
  }

  lemma CreatedRuns(t: Tables, a: CreateArgs)
    requires WellFormed(t) && CreateRun(t, a).0 != t
    ensures var runs := CreateRun(t, a).0.runs;
            UniqueRuns(runs) && NamedByKey(runs) && OneActive(runs) && OneBinding(runs) && ErrorsOnlyOnFailure(runs)
  {
    var candidate := Candidate(a);
    assert FindRun(t.runs, candidate.runId).None?;
    BindingCheckCoversConversation(t, a.userId, candidate.sessionId, candidate.metadata);
    RunsSnoc(t.runs, candidate);
  }

  lemma RunsSnoc(runs: seq<Run>, run: Run)
    requires UniqueRuns(runs) && NamedByKey(runs) && OneActive(runs) && OneBinding(runs) && ErrorsOnlyOnFailure(runs)
    requires FindRun(runs, run.runId).None? && run.runId == RunIdOf(run.userId, run.idempotencyKey) && run.error.None?
    requires !HasActive(runs, run.userId, run.sessionId)
    requires forall i :: 0 <= i < |runs| && InConversation(runs[i], run.userId, run.sessionId)
                         ==> SameBindings(runs[i].metadata, run.metadata)
    ensures UniqueRuns(runs + [run]) && NamedByKey(runs + [run]) && OneActive(runs + [run])
    ensures OneBinding(runs + [run]) && ErrorsOnlyOnFailure(runs + [run])
  {
  }

  lemma OwnedSnoc(t: Tables, run: Run)
    requires OwnedEvents(t)
    ensures OwnedEvents(t.(runs := t.runs + [run]))
  {
    var t' := t.(runs := t.runs + [run]);
    forall row | row in t'.events ensures FindRun(t'.runs, row.runId).Some? {
      var i := IndexOf(t.runs, row.runId);
      assert t'.runs[i].runId == row.runId;
    }
  }

  // The query looks at one earlier run only, but under the invariant it speaks for the whole conversation.
  lemma BindingCheckCoversConversation(t: Tables, userId: string, sessionId: string, metadata: map<string, string>)
    requires OneBinding(t.runs)
    ensures var prior := Latest(t.runs, userId, sessionId);
            (prior.Some? && !SameBindings(prior.value.metadata, metadata))
            <==> exists i :: 0 <= i < |t.runs| && InConversation(t.runs[i], userId, sessionId)
                             && !SameBindings(t.runs[i].metadata, metadata)
  {
    var prior := Latest(t.runs, userId, sessionId);
    if prior.Some? {
      var p :| 0 <= p < |t.runs| && t.runs[p] == prior.value;
      forall i | 0 <= i < |t.runs| && InConversation(t.runs[i], userId, sessionId)
        ensures SameBindings(t.runs[i].metadata, prior.value.metadata)
      {
        if i < p {
          assert SameBindings(t.runs[i].metadata, t.runs[p].metadata);
        } else if p < i {
          assert SameBindings(t.runs[p].metadata, t.runs[i].metadata);
        }
      }
    }
  }

  // Moving one active run forward keeps every property of the run table.
  lemma ProgressKeeps(t: Tables, i: nat, row: Run, events: seq<EventRow>)
    requires WellFormed(t) && i < |t.runs| && Progressed(t.runs[i], row) && t.events <= events
    requires row.status.Active() ==> t.runs[i].status.Active()
    requires row.error.Some? ==> row.status.Cancelled? || row.status.Failed?
    ensures Later(t, Tables(t.runs[i := row], events))
    ensures UniqueRuns(t.runs[i := row]) && NamedByKey(t.runs[i := row]) && OneActive(t.runs[i := row])
    ensures OneBinding(t.runs[i := row])
    ensures ErrorsOnlyOnFailure(t.runs[i := row])
  {
    var runs' := t.runs[i := row];
    forall j, k | 0 <= j < k < |runs'| && InConversation(runs'[k], runs'[j].userId, runs'[j].sessionId)
      ensures !(runs'[j].status.Active() && runs'[k].status.Active())
      ensures SameBindings(runs'[j].metadata, runs'[k].metadata)
    {
      assert InConversation(t.runs[k], t.runs[j].userId, t.runs[j].sessionId);
    }
  }

  lemma UpdateKeeps(t: Tables, id: string, status: Status, error: Option<string>, expected: Option<Status>)
    requires WellFormed(t)
    ensures var t' := UpdateStatus(t, id, status, error, expected).0;
            WellFormed(t') && Later(t, t')
  {
    var t' := UpdateStatus(t, id, status, error, expected).0;
    if t' != t {
      var i := IndexOf(t.runs, id);
      ProgressKeeps(t, i, t'.runs[i], t.events);
      OwnedLater(t, t', id);
    }
  }

  lemma AppendKeeps(t: Tables, a: AppendArgs)
    requires WellFormed(t)
    ensures WellFormed(AppendEvents(t, a).0) && Later(t, AppendEvents(t, a).0)
  {
    var t' := AppendEvents(t, a).0;
    if t' != t {
      var run := FindRun(t.runs, a.runId).value;
      BatchGrows(t.events, TargetOf(a, run), a.events, BatchKeys(a).value);
      OwnedLater(t, t', a.runId);
    }
  }

  lemma TerminalizeKeeps(t: Tables, a: TerminalArgs)
    requires WellFormed(t)
    ensures WellFormed(Terminalize(t, a).0) && Later(t, Terminalize(t, a).0)
  {
    var t' := Terminalize(t, a).0;
    if t' != t {
      var i := IndexOf(t.runs, a.runId);
      var row := t'.events[|t.events|];
      assert t'.events == t.events + [row];
      InsertGrows(t.events, row);
      ProgressKeeps(t, i, t'.runs[i], t'.events);
      OwnedLater(t, t', a.runId);
    }
  }

  // Over every sequence of operations: gapless logs, unique keys, one active run and one binding per
  // conversation, stored events immutable, status rank never falling, terminal rows frozen.
  lemma {:induction false} EveryRunKeeps(t: Tables, ops: seq<Op>)
    requires WellFormed(t)
    ensures WellFormed(ApplyAll(t, ops)) && Later(t, ApplyAll(t, ops))
    decreases ops
  {
    if ops != [] {
      var t' := Apply(t, ops[0]);
      match ops[0] {
        case Create(a) => CreateKeeps(t, a);
        case Update(id, status, error, expected) => UpdateKeeps(t, id, status, error, expected);
        case Append(a) => AppendKeeps(t, a);
        case Terminal(a) => TerminalizeKeeps(t, a);
      }
      EveryRunKeeps(t', ops[1..]);
      LaterTwice(t, t', ApplyAll(t', ops[1..]));
    }
  }

  lemma EmptyStoreWellFormed()
    ensures WellFormed(Tables([], []))
  {
  }

  // ---------------------------------------------------------------- retries

  lemma {:induction false} SameKeySameRow(rows: seq<EventRow>, rows': seq<EventRow>, runId: string, key: string)
    requires rows <= rows' && UniqueKeys(rows') && FindKey(rows, runId, key).Some?
    ensures FindKey(rows', runId, key) == FindKey(rows, runId, key)
  {
    var row := FindKey(rows, runId, key).value;
    assert row in rows';
    FindKeyUnique(rows', row);
  }

  function Replayed(outcomes: seq<Outcome>): (r: seq<Outcome>)
    ensures |r| == |outcomes|
  {
    seq(|outcomes|, i requires 0 <= i < |outcomes| => outcomes[i].(created := false))
  }

  lemma ReplayedSnoc(outcomes: seq<Outcome>)
    requires outcomes != []
    ensures Replayed(outcomes)
            == Replayed(outcomes[..|outcomes| - 1]) + [Outcome(outcomes[|outcomes| - 1].envelope, false)]
  {
  }

  lemma {:induction false} BatchReplay(
    rows: seq<EventRow>, target: Target, events: seq<AgEvent>, keys: seq<Option<string>>, outcomes: seq<Outcome>)
    requires |events| == |keys| == |outcomes| && UniqueKeys(rows)
    requires forall i :: 0 <= i < |keys| ==> keys[i].Some?
    requires forall i :: 0 <= i < |events| ==> StoredAs(rows, target, events[i], keys[i], outcomes[i].envelope)
    ensures AppendBatch(rows, target, events, keys) == Ok((rows, Replayed(outcomes)))
  {
    if events != [] {
      var n := |events| - 1;
      forall i | 0 <= i < n ensures StoredAs(rows, target, events[..n][i], keys[..n][i], outcomes[..n][i].envelope) {
        assert StoredAs(rows, target, events[i], keys[i], outcomes[i].envelope);
      }
      BatchReplay(rows, target, events[..n], keys[..n], outcomes[..n]);
      assert StoredAs(rows, target, events[n], keys[n], outcomes[n].envelope);
      var row :| row in rows && row.runId == target.runId && row.sourceKey == keys[n]
                 && row.envelope == outcomes[n].envelope;
      FindKeyUnique(rows, row);
      ReplayedSnoc(outcomes);
    }
  }

  // Retrying an accepted, fully keyed batch against any later store inserts nothing and answers the same envelopes.
  lemma RetriedBatchIsSilent(t: Tables, a: AppendArgs, later: Tables)
    requires WellFormed(t) && WellFormed(later)
    requires AppendEvents(t, a).1.Ok? && Later(AppendEvents(t, a).0, later)
    requires a.events != [] ==> a.sourceKeys.Some? && forall k :: k in a.sourceKeys.value ==> k.Some?
    ensures AppendEvents(later, a) == (later, Ok(Replayed(AppendEvents(t, a).1.value)))
  {
    if a.events == [] {
      assert Replayed([]) == [];
    } else {
      var (t', r) := AppendEvents(t, a);
      var keys := BatchKeys(a).value;
      var run := FindRun(t.runs, a.runId).value;
      assert t'.runs == t.runs;
      FindRunLater(t', later, a.runId);
      var target := TargetOf(a, run);
      assert TargetOf(a, FindRun(later.runs, a.runId).value) == target;
      BatchStored(t.events, target, a.events, keys);
      forall i | 0 <= i < |a.events|
        ensures StoredAs(later.events, target, a.events[i], keys[i], r.value[i].envelope)
      {
        assert StoredAs(t'.events, target, a.events[i], keys[i], r.value[i].envelope);
        var row :| row in t'.events && row.runId == target.runId && row.sourceKey == keys[i]
                   && row.envelope == r.value[i].envelope;
        assert row in later.events;
      }
      BatchReplay(later.events, target, a.events, keys, r.value);
    }
  }

  // A terminal commit freezes the status and appends the event together, and repeating it later changes nothing.
  // One terminalize: the status it leaves, and the one event it appends if it is the first.
  ghost predicate Together(t: Tables, a: TerminalArgs, next: (Tables, Result<Outcome, StoreError>)) {
    && next.1.Ok?
    && var (t', out) := (next.0, next.1.value);
       && FindRun(t'.runs, a.runId).Some? && FindRun(t.runs, a.runId).Some?
       && FindRun(t'.runs, a.runId).value.status == a.status
       && FindRun(t'.runs, a.runId).value.error == ClipError(a.error)
       && (out.created <==> FindRun(t.runs, a.runId).value.status.Active())
       && out.envelope.event == a.event
       && Envelopes(Log(t'.events, a.runId))
          == Envelopes(Log(t.events, a.runId)) + (if out.created then [out.envelope] else [])
  }

  lemma TerminalizeTogether(t: Tables, a: TerminalArgs)
    requires WellFormed(t) && Terminalize(t, a).1.Ok?
    ensures Together(t, a, Terminalize(t, a))
  {
    var t' := Terminalize(t, a).0;
    TerminalizeKeeps(t, a);
    FindRunUnique(t'.runs, IndexOf(t.runs, a.runId));
    if Terminalize(t, a).1.value.created {
      var row := t'.events[|t.events|];
      assert t'.events == t.events + [row];
      InsertGrows(t.events, row);
    } else {
      EmptySides(Envelopes(Log(t.events, a.runId)));
    }
  }

  // Repeated at any later point, an accepted terminalize changes nothing and answers with the stored event.
  lemma TerminalizeIsIdempotent(t: Tables, a: TerminalArgs, later: Tables)
    requires WellFormed(t) && WellFormed(later)
    requires Terminalize(t, a).1.Ok? && Later(Terminalize(t, a).0, later)
    ensures Terminalize(later, a) == (later, Ok(Outcome(Terminalize(t, a).1.value.envelope, false)))
  {
    var (t', r) := Terminalize(t, a);
    TerminalizeKeeps(t, a);
    var i := IndexOf(t.runs, a.runId);
    FindRunUnique(t'.runs, i);
    if r.value.created {
      FindKeyUnique(t'.events, t'.events[|t.events|]);
    }
    assert Progressed(t'.runs[i], later.runs[i]);
    FindRunUnique(later.runs, i);
    SameKeySameRow(t'.events, later.events, a.runId, a.sourceKey);
  }

  // ---------------------------------------------------------------- what creating and updating answer

  // Python's `value or default`.
  ghost predicate Resolves(value: Option<string>, default: string, r: string) {
    r == match value case Some(v) => (if |v| > 0 then v else default) case None => default
  }

  // The run is the one this request asks for.
  ghost predicate Describes(run: Run, a: CreateArgs) {
    && run.userId == a.userId && run.idempotencyKey == a.idempotencyKey && run.threadId == a.threadId
    && run.input == a.input && run.metadata == a.metadata
    && Resolves(a.sessionId, a.threadId, run.sessionId) && Resolves(a.invocationId, run.runId, run.invocationId)
  }

  ghost predicate Holds(run: Run, a: CreateArgs) { run.userId == a.userId && run.idempotencyKey == a.idempotencyKey }

  ghost predicate Short(s: string) { 0 < |s| <= 256 }

  ghost predicate Acceptable(a: CreateArgs, sessionId: string) {
    && Short(a.requestId) && Short(a.idempotencyKey) && Short(a.threadId) && Short(a.userId) && Short(sessionId)
    && (a.invocationId.Some? ==> |a.invocationId.value| <= 256
                                 || a.invocationId.value == RunIdOf(a.userId, a.idempotencyKey))
    && 0 < |a.input| <= 50_000
  }

  // A run of the conversation that leaves no room for another: it still works, or it is bound elsewhere.
  ghost predicate Excludes(run: Run, a: CreateArgs, sessionId: string) {
    && run.userId == a.userId && run.sessionId == sessionId
    && (run.status == Queued || run.status == Running
        || Lookup(run.metadata, "coding.workspace_identity") != Lookup(a.metadata, "coding.workspace_identity")
        || Lookup(run.metadata, "coding.harness_implementation") != Lookup(a.metadata, "coding.harness_implementation"))
  }

  ghost predicate MadeOrFound(t: Tables, a: CreateArgs, next: (Tables, Result<(Run, bool), StoreError>)) {
    && next.1.Ok?
    && var (run, isNew) := next.1.value;
       && Describes(run, a) && (isNew <==> !exists r :: r in t.runs && Holds(r, a))
       && (!isNew ==> next.0 == t && run in t.runs)
       && (isNew ==> next.0 == t.(runs := t.runs + [run]) && run.status == Queued && run.error.None?
                     && run.requestId == a.requestId && run.createdAt == a.now)
  }

  // What a create answers. Under a key the user has used: the stored run if it is the one asked for, and otherwise a
  // refusal. Under a new key: a new run, unless a run of the conversation excludes it or its id is taken.
  lemma CreateAnswers(t: Tables, a: CreateArgs, sessionId: string)
    requires WellFormed(t) && Resolves(a.sessionId, a.threadId, sessionId)
    ensures CreateRun(t, a).1.Err? ==> CreateRun(t, a).0 == t
    ensures CreateRun(t, a).1.Ok? ==> MadeOrFound(t, a, CreateRun(t, a))
    ensures CreateRun(t, a).1.Ok? <==>
      && Acceptable(a, sessionId)
      && if exists r :: r in t.runs && Holds(r, a) then exists r :: r in t.runs && Describes(r, a)
         else forall r :: r in t.runs ==> !Excludes(r, a, sessionId) && r.runId != RunIdOf(a.userId, a.idempotencyKey)
  {
    KeyHolder(t.runs, a);
    if IndexOfKey(t.runs, a.userId, a.idempotencyKey) < |t.runs| {
      KnownKeyAnswers(t, a, sessionId);
    } else {
      NewKeyAnswers(t, a, sessionId);
    }
  }

  lemma KeyHolder(runs: seq<Run>, a: CreateArgs)
    requires UniqueRuns(runs) && NamedByKey(runs)
    ensures var known := IndexOfKey(runs, a.userId, a.idempotencyKey);
            forall r :: r in runs && Holds(r, a) <==> known < |runs| && r == runs[known]
  {
    var known := IndexOfKey(runs, a.userId, a.idempotencyKey);
    forall r | r in runs && Holds(r, a) ensures known < |runs| && r == runs[known] {
      var i :| 0 <= i < |runs| && runs[i] == r;
      assert runs[i].runId == RunIdOf(a.userId, a.idempotencyKey);
    }
  }

  lemma ValidIff(a: CreateArgs, sessionId: string)
    requires Resolves(a.sessionId, a.threadId, sessionId)
    ensures Candidate(a).sessionId == sessionId
    ensures ValidRecord(Candidate(a)) <==> Acceptable(a, sessionId)
  {
  }

  lemma KnownKeyAnswers(t: Tables, a: CreateArgs, sessionId: string)
    requires WellFormed(t) && Resolves(a.sessionId, a.threadId, sessionId)
    requires var known := IndexOfKey(t.runs, a.userId, a.idempotencyKey);
             known < |t.runs| && forall r :: r in t.runs && Holds(r, a) <==> r == t.runs[known]
    ensures CreateRun(t, a).0 == t && (CreateRun(t, a).1.Ok? ==> MadeOrFound(t, a, CreateRun(t, a)))
    ensures exists r :: r in t.runs && Holds(r, a)
    ensures CreateRun(t, a).1.Ok? <==> Acceptable(a, sessionId) && exists r :: r in t.runs && Describes(r, a)
  {
    var run := t.runs[IndexOfKey(t.runs, a.userId, a.idempotencyKey)];
    ValidIff(a, sessionId);
    assert run in t.runs && Holds(run, a) && run.runId == Candidate(a).runId;
    assert SameRequest(run, Candidate(a)) <==> Describes(run, a);
  }

  lemma NewKeyAnswers(t: Tables, a: CreateArgs, sessionId: string)
    requires WellFormed(t) && Resolves(a.sessionId, a.threadId, sessionId)
    requires IndexOfKey(t.runs, a.userId, a.idempotencyKey) == |t.runs| && !exists r :: r in t.runs && Holds(r, a)
    ensures CreateRun(t, a).1.Err? ==> CreateRun(t, a).0 == t
    ensures CreateRun(t, a).1.Ok? ==> MadeOrFound(t, a, CreateRun(t, a))
    ensures CreateRun(t, a).1.Ok? <==>
      && Acceptable(a, sessionId)
      && forall r :: r in t.runs ==> !Excludes(r, a, sessionId) && r.runId != RunIdOf(a.userId, a.idempotencyKey)
  {
    var run := Candidate(a);
    ValidIff(a, sessionId);
    BindingCheckCoversConversation(t, a.userId, sessionId, a.metadata);
    NoneExcludes(t.runs, a, sessionId);
    FreshId(t.runs, run.runId);
    assert Describes(run, a);
  }

  lemma FreshId(runs: seq<Run>, runId: string)
    ensures FindRun(runs, runId).None? <==> forall r :: r in runs ==> r.runId != runId
  {
  }

  // The two queries over the conversation, together.
  lemma NoneExcludes(runs: seq<Run>, a: CreateArgs, sessionId: string)
    ensures (forall r :: r in runs ==> !Excludes(r, a, sessionId)) <==>
      && !HasActive(runs, a.userId, sessionId)
      && !exists i :: 0 <= i < |runs| && InConversation(runs[i], a.userId, sessionId)
                      && !SameBindings(runs[i].metadata, a.metadata)
  {
    if HasActive(runs, a.userId, sessionId) {
      var i :| 0 <= i < |runs| && InConversation(runs[i], a.userId, sessionId) && runs[i].status.Active();
      assert Excludes(runs[i], a, sessionId);
    }
    if i :| 0 <= i < |runs| && InConversation(runs[i], a.userId, sessionId)
            && !SameBindings(runs[i].metadata, a.metadata) {
      assert Excludes(runs[i], a, sessionId);
    }
  }

  // A create repeated under the same key at any later time changes nothing: it answers with the same run, however far
  // that has come, if it asks for the same, and is refused otherwise.
  lemma RetriedCreate(t: Tables, a: CreateArgs, later: Tables, b: CreateArgs, sessionId: string)
    requires WellFormed(t) && WellFormed(later) && CreateRun(t, a).1.Ok? && Later(CreateRun(t, a).0, later)
    requires b.userId == a.userId && b.idempotencyKey == a.idempotencyKey
    requires Resolves(b.sessionId, b.threadId, sessionId) && Acceptable(b, sessionId)
    ensures var run := CreateRun(t, a).1.value.0;
            exists run' :: run' in later.runs && Progressed(run, run')
              && CreateRun(later, b) == (later, if Describes(run, b) then Ok((run', false)) else Err(KeyReused))
  {
    var t', run := CreateRun(t, a).0, CreateRun(t, a).1.value.0;
    KeyHolder(t.runs, a);
    CreatedIsHeld(t, a);
    var k :| 0 <= k < |t'.runs| && t'.runs[k] == run;
    var run' := later.runs[k];
    assert Progressed(t'.runs[k], run');
    KeyHolder(later.runs, b);
    assert run' in later.runs && Holds(run', b);
    KnownKeyAnswers(later, b, sessionId);
    ValidIff(b, sessionId);
    assert SameRequest(run', Candidate(b)) <==> Describes(run, b);
  }

  lemma CreatedIsHeld(t: Tables, a: CreateArgs)
    requires WellFormed(t) && CreateRun(t, a).1.Ok?
    ensures var run := CreateRun(t, a).1.value.0;
            run in CreateRun(t, a).0.runs && Holds(run, a) && run.runId == RunIdOf(a.userId, a.idempotencyKey)
  {
    var known := IndexOfKey(t.runs, a.userId, a.idempotencyKey);
    if known == |t.runs| {
      assert CreateRun(t, a).0.runs[|t.runs|] == Candidate(a);
    }
  }

  // The moves of a status update.
  ghost predicate Allowed(before: Status, after: Status) {
    || (before == Queued && (after == Running || after == Cancelled || after == Failed))
    || (before == Running && (after == Completed || after == Cancelled || after == Failed))
  }

  // The stored form of an error: at most its first 4096 characters.
  ghost predicate StoredError(error: Option<string>, stored: Option<string>) {
    match error
    case None => stored.None?
    case Some(e) =>
      stored.Some? && if |e| <= 4_096 then stored.value == e else |stored.value| == 4_096 && stored.value <= e
  }

  lemma StoredErrorIff(error: Option<string>)
    ensures forall stored :: StoredError(error, stored) <==> stored == ClipError(error)
  {
    if error.Some? && |error.value| > 4_096 {
      forall stored: Option<string> ensures StoredError(error, stored) <==> stored == ClipError(error) {
        if StoredError(error, stored) {
          assert stored.value == error.value[..4_096];
        }
      }
    }
  }

  ghost predicate Updates(
    t: Tables, id: string, status: Status, error: Option<string>, expected: Option<Status>, run: Run)
  {
    && run in t.runs && run.runId == id && (expected.Some? ==> run.status == expected.value)
    && if run.status == status then StoredError(error, run.error) else Allowed(run.status, status)
  }

  ghost predicate Rewritten(t: Tables, t': Tables, id: string, status: Status, error: Option<string>, run: Run) {
    exists i :: 0 <= i < |t.runs| && t.runs[i].runId == id && t' == t.(runs := t.runs[i := run])
      && run == t.runs[i].(status := status, error := run.error) && StoredError(error, run.error)
  }

  // What a status update answers.
  lemma UpdateAnswers(t: Tables, id: string, status: Status, error: Option<string>, expected: Option<Status>)
    requires WellFormed(t)
    ensures var (t', r) := UpdateStatus(t, id, status, error, expected);
            && (r.Err? ==> t' == t) && (r.Ok? ==> Rewritten(t, t', id, status, error, r.value))
            && (r.Ok? <==>
                  && (error.Some? ==> status == Cancelled || status == Failed)
                  && exists run :: Updates(t, id, status, error, expected, run))
  {
    var (t', r) := UpdateStatus(t, id, status, error, expected);
    var i := IndexOf(t.runs, id);
    StoredErrorIff(error);
    forall run | run in t.runs && run.runId == id ensures i < |t.runs| && run == t.runs[i] {
      var j :| 0 <= j < |t.runs| && t.runs[j] == run;
      FindRunUnique(t.runs, j);
    }
    if i < |t.runs| {
      assert t.runs[i] in t.runs && t.runs[i := t.runs[i]] == t.runs;
      assert forall run :: Updates(t, id, status, error, expected, run) ==> run == t.runs[i];
      assert r.Ok? <==> (error.Some? ==> status == Cancelled || status == Failed)
                        && Updates(t, id, status, error, expected, t.runs[i]);
    }
  }

  ghost predicate UnderKey(t: Tables, runId: string, key: string, row: EventRow) {
    row in t.events && row.runId == runId && row.sourceKey == Some(key)
  }

  // A run that this terminalize ends, or has ended.
  ghost predicate Ends(t: Tables, a: TerminalArgs, run: Run) {
    && run in t.runs && run.runId == a.runId
    && if run.status == a.status
       then StoredError(a.error, run.error)
            && exists row :: UnderKey(t, a.runId, a.sourceKey, row) && row.envelope.event == a.event
       else run.status == a.expected && !exists row :: UnderKey(t, a.runId, a.sourceKey, row)
  }

  // When a terminalize is accepted.
  lemma TerminalizeAcceptedIff(t: Tables, a: TerminalArgs)
    requires WellFormed(t)
    ensures Terminalize(t, a).1.Err? ==> Terminalize(t, a).0 == t
    ensures Terminalize(t, a).1.Ok? <==>
      && 0 < |a.sourceKey| <= 512 && (a.event.runId.Some? ==> a.event.runId.value == a.runId)
      && (a.error.Some? ==> a.status != Completed) && exists run :: Ends(t, a, run)
  {
    var i := IndexOf(t.runs, a.runId);
    forall run | Ends(t, a, run) ensures i < |t.runs| && run == t.runs[i] {
      var j :| 0 <= j < |t.runs| && t.runs[j] == run;
      FindRunUnique(t.runs, j);
    }
    if i < |t.runs| {
      EndsIff(t, a, t.runs[i]);
      assert (exists run :: Ends(t, a, run)) <==> Ends(t, a, t.runs[i]);
    }
  }

  lemma EndsIff(t: Tables, a: TerminalArgs, run: Run)
    requires WellFormed(t) && run in t.runs && run.runId == a.runId
    ensures var stored := FindKey(t.events, a.runId, a.sourceKey);
            Ends(t, a, run) <==>
              if run.status == a.status
              then run.error == ClipError(a.error) && stored.Some? && stored.value.envelope.event == a.event
              else run.status == a.expected && stored.None?
  {
    StoredErrorIff(a.error);
    KeyRowIff(t, a.runId, a.sourceKey);
    StoredRow(t, a.runId, a.sourceKey);
  }

  lemma StoredRow(t: Tables, runId: string, key: string)
    ensures var stored := FindKey(t.events, runId, key);
            && (stored.Some? ==> UnderKey(t, runId, key, stored.value))
            && (stored.None? ==> !exists row :: UnderKey(t, runId, key, row))
  {
  }

  lemma KeyRowIff(t: Tables, runId: string, key: string)
    requires WellFormed(t)
    ensures forall row :: UnderKey(t, runId, key, row) <==> FindKey(t.events, runId, key) == Some(row)
  {
    forall row | UnderKey(t, runId, key, row) ensures FindKey(t.events, runId, key) == Some(row) {
      FindKeyUnique(t.events, row);
    }
  }

  // The key of each event of a batch, none unless given.
  function KeyAt(a: AppendArgs, k: nat): Option<string>
    requires k < |a.events| && (a.sourceKeys.Some? ==> |a.sourceKeys.value| == |a.events|)
  {
    if a.sourceKeys.Some? then a.sourceKeys.value[k] else None
  }

  // Keys of 1 to 512 characters, none twice, one for each event; events of this run.
  ghost predicate ProperBatch(a: AppendArgs) {
    && (a.sourceKeys.Some? ==> |a.sourceKeys.value| == |a.events|)
    && (forall k :: 0 <= k < |a.events| ==>
          && (KeyAt(a, k).Some? ==> 0 < |KeyAt(a, k).value| <= 512)
          && (a.events[k].runId.Some? ==> a.events[k].runId.value == a.runId))
    && (forall j, k :: 0 <= j < k < |a.events| && KeyAt(a, j).Some? ==> KeyAt(a, j) != KeyAt(a, k))
  }

  ghost predicate Carries(e: Envelope, a: AppendArgs, run: Run, event: AgEvent) {
    && e.event == event && e.durable
    && Resolves(a.sessionId, run.sessionId, e.sessionId) && Resolves(a.invocationId, run.invocationId, e.invocationId)
  }

  // The key of this event holds another event, or the same of another session or invocation.
  ghost predicate Clashes(t: Tables, a: AppendArgs, run: Run, k: nat)
    requires k < |a.events| && ProperBatch(a)
  {
    KeyAt(a, k).Some?
    && exists row :: UnderKey(t, a.runId, KeyAt(a, k).value, row) && !Carries(row.envelope, a, run, a.events[k])
  }

  ghost predicate Appends(t: Tables, a: AppendArgs, run: Run) {
    && run in t.runs && run.runId == a.runId && ProperBatch(a)
    && forall k :: 0 <= k < |a.events| ==> !Clashes(t, a, run, k)
  }

  // When an append is accepted; a refused one changes nothing.
  lemma AppendAcceptedIff(t: Tables, a: AppendArgs)
    requires WellFormed(t)
    ensures AppendEvents(t, a).1.Err? ==> AppendEvents(t, a).0 == t
    ensures AppendEvents(t, a).1.Ok? <==> a.durable && (a.events == [] || exists run :: Appends(t, a, run))
  {
    var i := IndexOf(t.runs, a.runId);
    forall run | run in t.runs && run.runId == a.runId ensures i < |t.runs| && run == t.runs[i] {
      var j :| 0 <= j < |t.runs| && t.runs[j] == run;
      FindRunUnique(t.runs, j);
    }
    ProperIff(a);
    if i < |t.runs| && ProperBatch(a) {
      var keys := BatchKeys(a).value;
      BatchOutcome(t.events, TargetOf(a, t.runs[i]), a.events, keys);
      forall k | 0 <= k < |a.events|
        ensures Clashes(t, a, t.runs[i], k) <==> Conflicts(t.events, TargetOf(a, t.runs[i]), a.events[k], keys[k])
      {
        ClashIff(t, a, t.runs[i], k);
      }
      assert t.runs[i] in t.runs;
      assert Appends(t, a, t.runs[i]) <==>
        !exists k :: 0 <= k < |a.events| && Conflicts(t.events, TargetOf(a, t.runs[i]), a.events[k], keys[k]);
    }
  }

  lemma ProperIff(a: AppendArgs)
    ensures BatchKeys(a).Ok? <==> ProperBatch(a)
    ensures ProperBatch(a) ==>
      var keys := BatchKeys(a).value;
      |keys| == |a.events| && DistinctKeys(keys) && forall k :: 0 <= k < |a.events| ==> keys[k] == KeyAt(a, k)
  {
    var keys := GivenKeys(a);
    if |keys| == |a.events| {
      forall k | 0 <= k < |keys| ensures keys[k] == KeyAt(a, k) {
      }
      ProperKeysIff(a, keys);
    }
  }

  lemma ProperKeysIff(a: AppendArgs, keys: seq<Option<string>>)
    requires |keys| == |a.events| && (a.sourceKeys.Some? ==> |a.sourceKeys.value| == |a.events|)
    requires forall k :: 0 <= k < |keys| ==> keys[k] == KeyAt(a, k)
    ensures ProperBatch(a) <==>
      && !(exists i :: 0 <= i < |keys| && keys[i].Some? && !(1 <= |keys[i].value| <= 512))
      && !(exists i, j :: 0 <= i < j < |keys| && keys[i].Some? && keys[i] == keys[j])
      && !(exists i :: 0 <= i < |a.events| && a.events[i].runId.Some? && a.events[i].runId.value != a.runId)
  {
    if ProperBatch(a) {
      forall i, j | 0 <= i < j < |keys| && keys[i].Some? ensures keys[i] != keys[j] {
        assert KeyAt(a, i) != KeyAt(a, j);
      }
    }
  }

  lemma ClashIff(t: Tables, a: AppendArgs, run: Run, k: nat)
    requires WellFormed(t) && ProperBatch(a) && k < |a.events|
    ensures Clashes(t, a, run, k) <==> Conflicts(t.events, TargetOf(a, run), a.events[k], KeyAt(a, k))
  {
    if KeyAt(a, k).Some? {
      KeyRowIff(t, a.runId, KeyAt(a, k).value);
      StoredRow(t, a.runId, KeyAt(a, k).value);
    }
  }

  // How many events a page may hold: the asked number, cut to between 1 and 10000.
  function PageSize(limit: int): nat { if limit < 1 then 1 else if limit > 10_000 then 10_000 else limit }

  function HighWater(log: seq<Envelope>, asked: Option<int>): int {
    if asked.Some? && asked.value < |log| then asked.value else |log|
  }

  // What follows the cursor, up to the page size and the high water.
  ghost predicate PageHolds(log: seq<Envelope>, after: nat, size: nat, to: int, page: Page) {
    && page.highWater == to && 0 <= to <= |log| && (page.hasMore <==> after + size < to)
    && page.events == if after >= to then [] else log[after..if after + size < to then after + size else to]
  }

  // What a page read answers.
  lemma PageAnswers(t: Tables, runId: string, after: int, limit: int, highWater: Option<int>)
    requires WellFormed(t)
    ensures var (r, log) := (ReplayPage(t, runId, after, limit, highWater), Envelopes(Log(t.events, runId)));
            && (r.Ok? <==> after >= 0 && (highWater.Some? ==> highWater.value >= 0)
                           && exists run :: run in t.runs && run.runId == runId)
            && (r.Ok? ==> PageHolds(log, after, PageSize(limit), HighWater(log, highWater), r.value))
  {
    FreshId(t.runs, runId);
    if after >= 0 && (highWater.Some? ==> highWater.value >= 0) {
      assert PageSize(limit) == Max(1, Min(limit, 10_000));
      PageSpelled(t.events, runId, after, PageSize(limit), highWater);
    }
  }

  lemma PageSpelled(events: seq<EventRow>, runId: string, after: nat, size: nat, highWater: Option<int>)
    requires GaplessLogs(events) && size > 0 && (highWater.Some? ==> highWater.value >= 0)
    ensures var log := Envelopes(Log(events, runId));
            PageHolds(log, after, size, HighWater(log, highWater),
                      SelectPage(Log(events, runId), after, size, highWater))
  {
    PageIsSlice(events, runId, after, size, highWater);
  }

  // ---------------------------------------------------------------- snapshot paging

  // One reader's pages, latest outermost, each with the events table it was selected from.
  datatype Reading =
    | First(rows: seq<EventRow>, page: Page)
    | Next(before: Reading, rows: seq<EventRow>, page: Page)
  {
    function Count(): nat { if First? then 1 else before.Count() + 1 }

    function Snapshot(): seq<EventRow> { if First? then rows else before.Snapshot() }

    function HighWater(): nat { if First? then page.highWater else before.HighWater() }

    function Seen(): seq<Envelope> { if First? then page.events else before.Seen() + page.events }

    // The tables only grow between pages; the reader continues after the last sequence it saw, below the first
    // page's high water, and only while there is more.
    ghost predicate Valid(runId: string, after: nat, bounded: nat) {
      && GaplessLogs(rows)
      && match this
         case First(_, _) => page == SelectPage(Log(rows, runId), after, bounded, None)
         case Next(_, _, _) =>
           && before.Valid(runId, after, bounded) && before.page.hasMore && before.rows <= rows
           && page == SelectPage(Log(rows, runId), Cursor(after, before.Seen()), bounded, Some(HighWater()))
    }
  }

  // The reader's cursor: the last sequence it has seen.
  function Cursor(after: nat, seen: seq<Envelope>): nat {
    if seen == [] then after else seen[|seen| - 1].sequence
  }

  // Events after `from`, up to and including `to`, of a log numbered from 1.
  function Slice(log: seq<Envelope>, from: nat, to: nat): seq<Envelope> {
    if from <= to <= |log| then log[from..to] else []
  }

  // The events of a gapless log after a sequence and up to another.
  function Between(log: seq<Envelope>, after: nat, upTo: nat): seq<Envelope> {
    Slice(log, after, Min(upTo, |log|))
  }

  lemma BetweenSnoc(log: seq<Envelope>, e: Envelope, after: nat, upTo: nat)
    ensures Between(log + [e], after, upTo)
            == Between(log, after, upTo) + (if after < |log| + 1 <= upTo then [e] else [])
  {
  }

  lemma {:induction false} RangeIsSlice(log: seq<EventRow>, after: nat, upTo: nat)
    requires forall k :: 0 <= k < |log| ==> log[k].sequence == k + 1
    ensures Range(log, after, upTo) == Between(Envelopes(log), after, upTo)
  {
    if log != [] {
      var n := |log| - 1;
      RangeIsSlice(log[..n], after, upTo);
      SplitLast(log);
      EnvelopesSnoc(log[..n], log[n]);
      BetweenSnoc(Envelopes(log[..n]), log[n].envelope, after, upTo);
    }
  }

  lemma {:induction false} LogPrefix(events: seq<EventRow>, events': seq<EventRow>, id: string)
    requires events <= events'
    ensures Envelopes(Log(events, id)) <= Envelopes(Log(events', id))
    decreases |events'|
  {
    if |events| < |events'| {
      var n := |events'| - 1;
      LogPrefix(events, events'[..n], id);
      LogSnoc(events'[..n], events'[n], id);
      assert events' == events'[..n] + [events'[n]];
    } else {
      assert events == events';
    }
  }

  lemma CutSlice(log: seq<Envelope>, after: nat, to: nat, bounded: nat)
    requires to <= |log|
    ensures var rows := Between(log, after, to);
            (if |rows| > bounded then rows[..bounded] else rows) == Slice(log, after, Min(after + bounded, to))
  {
    if after + bounded < to {
      assert log[after..to][..bounded] == log[after..after + bounded];
    }
  }

  // The page of a gapless log: the next stretch after the cursor, at most `bounded` long, cut at the high water.
  function PageOf(log: seq<Envelope>, after: nat, bounded: nat, highWater: Option<int>): Page
    requires highWater.Some? ==> highWater.value >= 0
  {
    var to := if highWater.None? then |log| else Min(highWater.value, |log|);
    Page(Slice(log, after, Min(after + bounded, to)), to, after + bounded < to)
  }

  // What SelectPage makes of the rows of a page whose high water is `to`.
  lemma CutPage(log: seq<Envelope>, after: nat, to: nat, bounded: nat, rows: seq<Envelope>)
    requires to <= |log| && rows == Between(log, after, to)
    ensures Page(if |rows| > bounded then rows[..bounded] else rows, to, |rows| > bounded)
            == Page(Slice(log, after, Min(after + bounded, to)), to, after + bounded < to)
  {
    CutSlice(log, after, to, bounded);
  }

  lemma PageIsSlice(events: seq<EventRow>, runId: string, after: nat, bounded: nat, highWater: Option<int>)
    requires GaplessLogs(events) && (highWater.Some? ==> highWater.value >= 0)
    ensures SelectPage(Log(events, runId), after, bounded, highWater)
            == PageOf(Envelopes(Log(events, runId)), after, bounded, highWater)
  {
    var log := Log(events, runId);
    GaplessMax(events, runId);
    forall k: nat | k < |log| ensures log[k].sequence == k + 1 {
      assert WellNumbered(log[k], runId, k + 1);
    }
    var to := if highWater.None? then |log| else Min(highWater.value, |log|);
    RangeIsSlice(log, after, to);
    CutPage(Envelopes(log), after, to, bounded, Range(log, after, to));
  }

  // The number of events in `count` full pages.
  function FullPages(count: nat, bounded: nat): nat {
    if count == 0 then 0 else FullPages(count - 1, bounded) + bounded
  }

  // What has been read after some pages.
  ghost predicate ReadSoFar(log: seq<Envelope>, after: nat, bounded: nat, count: nat, seen: seq<Envelope>, more: bool) {
    && seen == Slice(log, after, after + |seen|)
    && (more ==> after + |seen| < |log| && |seen| == FullPages(count, bounded))
    && (!more ==> seen == Slice(log, after, |log|))
    && (count > 1 ==> FullPages(count - 1, bounded) < |log| - after)
  }

  lemma ReadFirst(log: seq<Envelope>, after: nat, bounded: nat)
    ensures var page := PageOf(log, after, bounded, None);
            ReadSoFar(log, after, bounded, 1, page.events, page.hasMore)
  {
    assert FullPages(1, bounded) == bounded;
  }

  lemma ReadOneMore(log: seq<Envelope>, after: nat, bounded: nat, count: nat, seen: seq<Envelope>, page: Page)
    requires ReadSoFar(log, after, bounded, count, seen, true) && bounded > 0 && count > 0
    requires page == PageOf(log, after + |seen|, bounded, None)
    ensures ReadSoFar(log, after, bounded, count + 1, seen + page.events, page.hasMore)
  {
    var from := after + |seen|;
    var to := Min(from + bounded, |log|);
    SlicesJoin(log, after, from, to);
    StillReading(log, after, bounded, count, seen + page.events, to);
  }

  // The events up to `to`, read as one more page than `count`.
  lemma StillReading(log: seq<Envelope>, after: nat, bounded: nat, count: nat, seen: seq<Envelope>, to: nat)
    requires count > 0 && after + FullPages(count, bounded) < |log| && seen == Slice(log, after, to)
    requires to == Min(after + FullPages(count, bounded) + bounded, |log|)
    ensures ReadSoFar(log, after, bounded, count + 1, seen, after + FullPages(count, bounded) + bounded < |log|)
  {
    assert |seen| == to - after;
  }

  lemma SlicesJoin(log: seq<Envelope>, a: nat, b: nat, c: nat)
    requires a <= b <= c <= |log|
    ensures Slice(log, a, b) + Slice(log, b, c) == Slice(log, a, c)
  {
  }

  lemma CursorAtEnd(events: seq<EventRow>, runId: string, after: nat, seen: seq<Envelope>)
    requires GaplessLogs(events) && seen != []
    requires seen == Slice(Envelopes(Log(events, runId)), after, after + |seen|)
    ensures Cursor(after, seen) == after + |seen|
  {
    var rows := Log(events, runId);
    assert seen[|seen| - 1] == rows[after + |seen| - 1].envelope;
    assert WellNumbered(rows[after + |seen| - 1], runId, after + |seen|);
  }

  lemma {:induction false} FullPagesProduct(count: nat, bounded: nat)
    ensures FullPages(count, bounded) == count * bounded
  {
    if count > 0 {
      FullPagesProduct(count - 1, bounded);
    }
  }

  lemma {:induction false} ReadingGrows(r: Reading, runId: string, after: nat, bounded: nat)
    requires r.Valid(runId, after, bounded)
    ensures GaplessLogs(r.Snapshot()) && r.Snapshot() <= r.rows
  {
    if r.Next? {
      ReadingGrows(r.before, runId, after, bounded);
    }
  }

  // The pages so far against the log of the first page's tables.
  ghost predicate Exact(r: Reading, runId: string, after: nat, bounded: nat) {
    var log := Envelopes(Log(r.Snapshot(), runId));
    r.HighWater() == |log| && ReadSoFar(log, after, bounded, r.Count(), r.Seen(), r.page.hasMore)
  }

  lemma PagingFirst(r: Reading, runId: string, after: nat, bounded: nat)
    requires r.First? && r.Valid(runId, after, bounded)
    ensures Exact(r, runId, after, bounded)
  {
    PageIsSlice(r.rows, runId, after, bounded, None);
    ReadFirst(Envelopes(Log(r.rows, runId)), after, bounded);
  }

  lemma PagingNext(r: Reading, runId: string, after: nat, bounded: nat)
    requires r.Next? && r.Valid(runId, after, bounded) && bounded > 0 && Exact(r.before, runId, after, bounded)
    ensures Exact(r, runId, after, bounded)
  {
    var first, seen, count := r.before.Snapshot(), r.before.Seen(), r.before.Count();
    assert first <= r.rows && GaplessLogs(first) && count > 0 by {
      ReadingGrows(r.before, runId, after, bounded);
    }
    assert r.Snapshot() == first && r.Seen() == seen + r.page.events && r.Count() == count + 1;
    assert r.HighWater() == |Envelopes(Log(first, runId))|;
    PagingStep(first, r.rows, runId, Envelopes(Log(first, runId)), after, bounded, count, seen, r.page);
  }

  // Whatever is appended between pages, the pages spell the snapshot events (after, H] in order, once each; the
  // last page completes them; every page but the last is full, so at most (H - after) / limit + 1 pages are read.
  lemma {:induction false} PagingIsExact(r: Reading, runId: string, after: nat, bounded: nat)
    requires r.Valid(runId, after, bounded) && bounded > 0
    ensures Exact(r, runId, after, bounded)
  {
    if r.First? {
      PagingFirst(r, runId, after, bounded);
    } else {
      PagingIsExact(r.before, runId, after, bounded);
      PagingNext(r, runId, after, bounded);
    }
  }

  lemma PagingStep(
    first: seq<EventRow>, events: seq<EventRow>, runId: string, log: seq<Envelope>, after: nat, bounded: nat,
    count: nat, seen: seq<Envelope>, page: Page)
    requires GaplessLogs(first) && GaplessLogs(events) && first <= events && bounded > 0 && count > 0
    requires log == Envelopes(Log(first, runId)) && ReadSoFar(log, after, bounded, count, seen, true)
    requires page == SelectPage(Log(events, runId), Cursor(after, seen), bounded, Some(|log|))
    ensures ReadSoFar(log, after, bounded, count + 1, seen + page.events, page.hasMore)
  {
    PageAfterPrefix(first, events, runId, Cursor(after, seen), bounded, log, page);
    ContinueReading(first, runId, log, after, bounded, count, seen, page);
  }

  lemma ContinueReading(
    first: seq<EventRow>, runId: string, log: seq<Envelope>, after: nat, bounded: nat, count: nat,
    seen: seq<Envelope>, page: Page)
    requires GaplessLogs(first) && log == Envelopes(Log(first, runId)) && bounded > 0 && count > 0
    requires ReadSoFar(log, after, bounded, count, seen, true)
    requires page == PageOf(log, Cursor(after, seen), bounded, None)
    ensures ReadSoFar(log, after, bounded, count + 1, seen + page.events, page.hasMore)
  {
    assert |seen| == FullPages(count, bounded) > 0;
    CursorAtEnd(first, runId, after, seen);
    ReadOneMore(log, after, bounded, count, seen, page);
  }

  lemma PageIgnoresTail(log: seq<Envelope>, log': seq<Envelope>, after: nat, bounded: nat)
    requires log <= log'
    ensures PageOf(log', after, bounded, Some(|log|)) == PageOf(log, after, bounded, None)
  {
    var to := Min(after + bounded, |log|);
    if after <= to {
      assert log'[after..to] == log[after..to];
    }
  }

  lemma PageAfterPrefix(
    first: seq<EventRow>, events: seq<EventRow>, runId: string, from: nat, bounded: nat, log: seq<Envelope>,
    page: Page)
    requires GaplessLogs(events) && first <= events && log == Envelopes(Log(first, runId))
    requires page == SelectPage(Log(events, runId), from, bounded, Some(|log|))
    ensures page == PageOf(log, from, bounded, None)
  {
    LogPrefix(first, events, runId);
    PageIsSlice(events, runId, from, bounded, Some(|log|));
    PageIgnoresTail(log, Envelopes(Log(events, runId)), from, bounded);
  }
}
