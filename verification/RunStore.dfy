// SqliteRunEventStore: the tables of RunRegistry, updated in place one transaction at a time.
module RunStore {
  import opened Wrappers
  import opened RunRegistry

  class SqliteRunEventStore {
    var runs: seq<Run>
    var events: seq<EventRow>

    ghost function View(): Tables
      reads this
    {
      Tables(runs, events)
    }

    ghost predicate Valid()
      reads this
    {
      WellFormed(View())
    }

    constructor ()
      ensures Valid() && View() == Tables([], [])
    {
      runs := [];
      events := [];
    }

    method Create(a: CreateArgs) returns (r: Result<(Run, bool), StoreError>)
      requires Valid()
      modifies this
      ensures Valid() && (View(), r) == CreateRun(old(View()), a)
    {
      CreateKeeps(View(), a);
      var candidate := Candidate(a);
      if !ValidRecord(candidate) {
        return Err(InvalidArgument);
      }
      var known := IndexOfKey(runs, a.userId, a.idempotencyKey);
      if known < |runs| {
        if !SameRequest(runs[known], candidate) {
          return Err(KeyReused);
        }
        return Ok((runs[known], false));
      }
      if HasActive(runs, a.userId, candidate.sessionId) {
        return Err(ActiveWork);
      }
      var prior := Latest(runs, a.userId, candidate.sessionId);
      if prior.Some? {
        var bindings := [WORKSPACE_BINDING, HARNESS_BINDING];
        var i := 0;
        while i < |bindings|
          invariant i <= |bindings| == 2
          invariant forall j :: 0 <= j < i ==>
            Lookup(prior.value.metadata, bindings[j]) == Lookup(candidate.metadata, bindings[j])
        {
          if Lookup(prior.value.metadata, bindings[i]) != Lookup(candidate.metadata, bindings[i]) {
            return Err(ForeignConversation);
          }
          i := i + 1;
        }
        assert bindings[0] == WORKSPACE_BINDING && bindings[1] == HARNESS_BINDING;
      }
      if FindRun(runs, candidate.runId).Some? {
        return Err(IntegrityError);
      }
      runs := runs + [candidate];
      return Ok((candidate, true));
    }

    method Update(id: string, status: Status, error: Option<string>, expected: Option<Status>)
      returns (r: Result<Run, StoreError>)
      requires Valid()
      modifies this`runs
      ensures Valid() && (View(), r) == UpdateStatus(old(View()), id, status, error, expected)
    {
      UpdateKeeps(View(), id, status, error, expected);
      var clipped := ClipError(error);
      if (status.Active() || status.Completed?) && clipped.Some? {
        return Err(ErrorNotAllowed);
      }
      var i := IndexOf(runs, id);
      if i == |runs| {
        return Err(UnknownRun);
      }
      var previous := runs[i].status;
      if expected.Some? && previous != expected.value {
        return Err(CompareAndSetConflict);
      }
      if status == previous {
        if clipped != runs[i].error {
          return Err(ErrorChanged);
        }
        return Ok(runs[i]);
      }
      if !previous.MayBecome(status) {
        return Err(InvalidTransition);
      }
      runs := runs[i := runs[i].(status := status, error := clipped)];
      return Ok(runs[i]);
    }

    method Append(a: AppendArgs) returns (r: Result<seq<Outcome>, StoreError>)
      requires Valid()
      modifies this`events
      ensures Valid() && (View(), r) == AppendEvents(old(View()), a)
    {
      AppendKeeps(View(), a);
      r := CheckAndInsert(a);
    }

    method CheckAndInsert(a: AppendArgs) returns (r: Result<seq<Outcome>, StoreError>)
      requires GaplessLogs(events)
      modifies this`events
      ensures (View(), r) == AppendEvents(old(View()), a)
    {
      if !a.durable {
        return Err(InvalidArgument);
      }
      if a.events == [] {
        return Ok([]);
      }
      var resolved := BatchKeys(a);
      if resolved.Err? {
        return Err(resolved.error);
      }
      var run := FindRun(runs, a.runId);
      if run.None? {
        return Err(UnknownRun);
      }
      r := InsertBatch(TargetOf(a, run.value), a.events, resolved.value);
    }

    // One row of the batch, under the sequence counted so far.
    method InsertRow(target: Target, sequence: nat, event: AgEvent, key: Option<string>)
      returns (r: Result<Outcome, StoreError>)
      requires sequence == |Log(events, target.runId)| + 1
      modifies this`events
      ensures var out := AppendOne(old(events), target, event, key);
              if out.Err? then events == old(events) && r == Err(out.error) else r.Ok? && Ok((events, r.value)) == out
      ensures r.Ok? ==> |Log(events, target.runId)| + 1 == sequence + if r.value.created then 1 else 0
    {
      var existing := if key.Some? then FindKey(events, target.runId, key.value) else None;
      if existing.Some? {
        if !Matches(existing.value.envelope, target, event) {
          return Err(KeyReused);
        }
        return Ok(Outcome(existing.value.envelope, false));
      }
      var envelope := EnvelopeFor(target, sequence, event);
      LogSnoc(events, EventRow(target.runId, sequence, key, envelope), target.runId);
      events := events + [EventRow(target.runId, sequence, key, envelope)];
      r := Ok(Outcome(envelope, true));
    }

    // The next sequence is read once and counted up; a conflict rolls every insert of the batch back.
    method InsertBatch(target: Target, batch: seq<AgEvent>, keys: seq<Option<string>>)
      returns (r: Result<seq<Outcome>, StoreError>)
      requires GaplessLogs(events) && |batch| == |keys|
      modifies this`events
      ensures var out := AppendBatch(old(events), target, batch, keys);
              if out.Err? then events == old(events) && r == Err(out.error)
              else events == out.value.0 && r == Ok(out.value.1)
    {
      var before := events;
      var nextSequence := MaxSequence(Log(events, target.runId)) + 1;
      GaplessMax(events, target.runId);
      var outcomes: seq<Outcome> := [];
      var i := 0;
      assert batch[..0] == [] && keys[..0] == [];
      while i < |batch|
        invariant i <= |batch|
        invariant AppendBatch(before, target, batch[..i], keys[..i]) == Ok((events, outcomes))
        invariant nextSequence == |Log(events, target.runId)| + 1
      {
        BatchStep(before, target, batch, keys, i);
        var inserted := InsertRow(target, nextSequence, batch[i], keys[i]);
        if inserted.Err? {
          BatchStops(before, target, batch, keys, i + 1);
          events := before;
          return Err(inserted.error);
        }
        outcomes := outcomes + [inserted.value];
        nextSequence := nextSequence + if inserted.value.created then 1 else 0;
        i := i + 1;
      }
      WholeBatch(batch, keys);
      return Ok(outcomes);
    }

    method Finish(a: TerminalArgs) returns (r: Result<Outcome, StoreError>)
      requires Valid()
      modifies this
      ensures Valid() && (View(), r) == Terminalize(old(View()), a)
    {
      TerminalizeKeeps(View(), a);
      r := FinishRow(a);
    }

    method FinishRow(a: TerminalArgs) returns (r: Result<Outcome, StoreError>)
      requires GaplessLogs(events)
      modifies this
      ensures (View(), r) == Terminalize(old(View()), a)
    {
      if |a.sourceKey| == 0 || |a.sourceKey| > 512 {
        return Err(InvalidArgument);
      }
      if a.event.runId.Some? && a.event.runId.value != a.runId {
        return Err(InvalidArgument);
      }
      if a.status.Completed? && a.error.Some? {
        return Err(ErrorNotAllowed);
      }
      var error := ClipError(a.error);
      var i := IndexOf(runs, a.runId);
      if i == |runs| {
        return Err(UnknownRun);
      }
      var existing := FindKey(events, a.runId, a.sourceKey);
      if runs[i].status == a.status {
        if runs[i].error != error || existing.None? || existing.value.envelope.event != a.event {
          return Err(ReplayConflict);
        }
        return Ok(Outcome(existing.value.envelope, false));
      }
      if runs[i].status != a.expected {
        return Err(CompareAndSetConflict);
      }
      if existing.Some? {
        return Err(KeyReused);
      }
      GaplessMax(events, a.runId);
      var sequence := MaxSequence(Log(events, a.runId)) + 1;
      var envelope := EnvelopeFor(Target(a.runId, runs[i].sessionId, runs[i].invocationId), sequence, a.event);
      events := events + [EventRow(a.runId, sequence, Some(a.sourceKey), envelope)];
      runs := runs[i := runs[i].(status := a.status, error := error)];
      return Ok(Outcome(envelope, true));
    }

    // replay_page: one row more than the page is read, to see whether there is more.
    method ReadPage(runId: string, after: int, limit: int, highWater: Option<int>) returns (r: Result<Page, StoreError>)
      ensures r == ReplayPage(View(), runId, after, limit, highWater)
    {
      if after < 0 {
        return Err(InvalidArgument);
      }
      if highWater.Some? && highWater.value < 0 {
        return Err(InvalidArgument);
      }
      var bounded := Max(1, Min(limit, 10_000));
      if FindRun(runs, runId).None? {
        return Err(UnknownRun);
      }
      var log := Log(events, runId);
      var observed := MaxSequence(log);
      var effective := if highWater.None? then observed else Min(highWater.value, observed);
      var found := Range(log, after, effective);
      var rows := if |found| > bounded + 1 then found[..bounded + 1] else found;
      var hasMore := |rows| > bounded;
      var page := rows;
      if hasMore {
        page := page[..bounded];
        assert page == found[..bounded];
      }
      r := Ok(Page(page, effective, hasMore));
    }
  }

  lemma WholeBatch(batch: seq<AgEvent>, keys: seq<Option<string>>)
    ensures batch[..|batch|] == batch && keys[..|keys|] == keys
  {
  }

  lemma BatchStep(rows: seq<EventRow>, target: Target, events: seq<AgEvent>, keys: seq<Option<string>>, i: nat)
    requires i < |events| == |keys|
    ensures AppendBatch(rows, target, events[..i + 1], keys[..i + 1])
            == var before := AppendBatch(rows, target, events[..i], keys[..i]);
               if before.Err? then before
               else var one := AppendOne(before.value.0, target, events[i], keys[i]);
                    if one.Err? then Err(one.error) else Ok((one.value.0, before.value.1 + [one.value.1]))
  {
    assert events[..i + 1][..i] == events[..i] && keys[..i + 1][..i] == keys[..i];
  }

  // A batch that failed on a prefix fails as a whole, with the same error.
  lemma {:induction false} BatchStops(
    rows: seq<EventRow>, target: Target, events: seq<AgEvent>, keys: seq<Option<string>>, i: nat)
    requires i <= |events| == |keys|
    requires AppendBatch(rows, target, events[..i], keys[..i]).Err?
    ensures AppendBatch(rows, target, events, keys) == AppendBatch(rows, target, events[..i], keys[..i])
    decreases |events| - i
  {
    if i < |events| {
      BatchStep(rows, target, events, keys, i);
      BatchStops(rows, target, events, keys, i + 1);
    } else {
      assert events[..i] == events && keys[..i] == keys;
    }
  }
}
