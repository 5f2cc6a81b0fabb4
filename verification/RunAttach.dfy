// harness/server/runtime.py, attach: a reader that finds the run still active gets the rest of its log through the
// event that ends it, or is told that it fell behind.
module RunAttach {
  import opened Wrappers
  import opened RunRegistry
  import opened RunFanout

  // The live loop of attach: it skips what the snapshot yielded, forwards the rest, and returns at an event that ends
  // the run.
  function Follow(cursor: nat, live: seq<Envelope>, ends: AgEvent -> bool): (seq<Envelope>, bool)
    decreases |live|
  {
    if live == [] then ([], false)
    else
      var e := live[0];
      if e.sequence <= cursor then Follow(cursor, live[1..], ends)
      else if ends(e.event) then ([e], true)
      else
        var (rest, returned) := Follow(e.sequence, live[1..], ends);
        ([e] + rest, returned)
  }

  ghost predicate NoEnd(log: seq<Envelope>, from: nat, to: nat, ends: AgEvent -> bool) {
    forall k :: from <= k < to && k < |log| ==> !ends(log[k].event)
  }

  // Without an end in sight the loop forwards everything.
  lemma {:induction false} FollowsOn(log: seq<Envelope>, cursor: nat, from: nat, to: nat, ends: AgEvent -> bool)
    requires from <= to <= |log| && Counted(log) && from <= cursor && NoEnd(log, cursor, to, ends)
    ensures Follow(cursor, log[from..to], ends) == (Slice(log, cursor, Max(cursor, to)), false)
    decreases |log| - from
  {
    if from < to {
      var live := log[from..to];
      assert live[0] == log[from] && live[1..] == log[from + 1..to];
      if from + 1 <= cursor {
        FollowsOn(log, cursor, from + 1, to, ends);
      } else {
        FollowsOn(log, from + 1, from + 1, to, ends);
        assert [log[from]] + log[from + 1..to] == log[from..to];
      }
    } else {
      assert Slice(log, cursor, Max(cursor, to)) == [];
    }
  }

  // The loop returns with the first end past the cursor.
  lemma {:induction false} FollowsToEnd(
    log: seq<Envelope>, cursor: nat, from: nat, to: nat, n: nat, ends: AgEvent -> bool)
    requires from <= to <= |log| && Counted(log) && from <= cursor <= n < to
    requires NoEnd(log, cursor, n, ends) && ends(log[n].event)
    ensures Follow(cursor, log[from..to], ends) == (log[cursor..n + 1], true)
    decreases |log| - from
  {
    var live := log[from..to];
    assert live[0] == log[from] && live[1..] == log[from + 1..to];
    if from + 1 <= cursor {
      FollowsToEnd(log, cursor, from + 1, to, n, ends);
    } else if from == n {
      assert log[n..n + 1] == [log[n]];
    } else {
      FollowsToEnd(log, from + 1, from + 1, to, n, ends);
      assert [log[from]] + log[from + 1..n + 1] == log[from..n + 1];
    }
  }

  // ---------------------------------------------------------------- when a run's log has an end

  // The commits the server makes: only terminalize brings an event that ends the run, and only it ends one.
  ghost predicate Served(op: Op, ends: AgEvent -> bool) {
    match op
    case Create(_) => true
    case Update(_, status, _, _) => status.Active()
    case Append(a) => forall e :: e in a.events ==> !ends(e)
    case Terminal(a) => ends(a.event)
  }

  // A run's log ends at this place.
  ghost predicate EndsAt(log: seq<Envelope>, n: nat, ends: AgEvent -> bool) {
    && n < |log| && ends(log[n].event)
    && forall k :: 0 <= k < |log| && k != n ==> !ends(log[k].event)
  }

  ghost predicate HasEnd(log: seq<Envelope>, ends: AgEvent -> bool) { exists n: nat :: EndsAt(log, n, ends) }

  // An active run has no end; every other has one.
  ghost predicate EndMarks(run: Run, log: seq<Envelope>, ends: AgEvent -> bool) {
    if run.status.Active() then NoEnd(log, 0, |log|, ends) else HasEnd(log, ends)
  }

  ghost predicate Marked(t: Tables, ends: AgEvent -> bool) {
    forall id :: FindRun(t.runs, id).Some? ==> EndMarks(FindRun(t.runs, id).value, LogOf(t, id), ends)
  }

  // More events that end nothing.
  lemma MoreEvents(run: Run, run': Run, log: seq<Envelope>, more: seq<Envelope>, ends: AgEvent -> bool)
    requires EndMarks(run, log, ends) && run.status.Active() == run'.status.Active()
    requires forall e :: e in more ==> !ends(e.event)
    ensures EndMarks(run', log + more, ends)
  {
    var log' := log + more;
    assert forall k :: |log| <= k < |log'| ==> log'[k] in more;
    if !run.status.Active() {
      var n: nat :| EndsAt(log, n, ends);
      assert EndsAt(log', n, ends);
    }
  }

  // The event that ends an active run.
  lemma EndEvent(run: Run, run': Run, log: seq<Envelope>, e: Envelope, ends: AgEvent -> bool)
    requires EndMarks(run, log, ends) && run.status.Active() && !run'.status.Active() && ends(e.event)
    ensures EndMarks(run', log + [e], ends)
  {
    assert EndsAt(log + [e], |log|, ends);
  }

  lemma {:induction false} BatchEvents(
    rows: seq<EventRow>, target: Target, events: seq<AgEvent>, keys: seq<Option<string>>)
    requires |events| == |keys| && AppendBatch(rows, target, events, keys).Ok?
    ensures forall e :: e in Created(AppendBatch(rows, target, events, keys).value.1) ==> e.event in events
  {
    if events != [] {
      var n := |events| - 1;
      BatchEvents(rows, target, events[..n], keys[..n]);
      var (mid, some) := AppendBatch(rows, target, events[..n], keys[..n]).value;
      var (rows', outcome) := AppendOne(mid, target, events[n], keys[n]).value;
      CreatedSnoc(some, outcome);
      SplitLast(events);
    }
  }

  lemma AppendMarks(t: Tables, a: AppendArgs, ends: AgEvent -> bool)
    requires WellFormed(t) && Marked(t, ends) && Served(Append(a), ends)
    ensures Marked(Apply(t, Append(a)), ends)
  {
    var t' := Apply(t, Append(a));
    AppendGains(t, a);
    if AppendEvents(t, a).1.Ok? && a.events != [] {
      BatchEvents(t.events, TargetOf(a, FindRun(t.runs, a.runId).value), a.events, BatchKeys(a).value);
    }
    forall id | FindRun(t'.runs, id).Some? ensures EndMarks(FindRun(t'.runs, id).value, LogOf(t', id), ends) {
      var run := FindRun(t.runs, id).value;
      if id == a.runId {
        MoreEvents(run, run, LogOf(t, id), Published(t, Append(a)), ends);
      }
    }
  }

  // A status change in one row leaves the other runs where they are.
  lemma {:induction false} OtherRow(runs: seq<Run>, i: nat, row: Run, id: string)
    requires i < |runs| && row.runId == runs[i].runId
    ensures IndexOf(runs[i := row], id) == IndexOf(runs, id)
  {
    if i > 0 {
      assert runs[i := row][1..] == runs[1..][i - 1 := row];
      OtherRow(runs[1..], i - 1, row, id);
    } else {
      assert runs[i := row][1..] == runs[1..];
    }
  }

  lemma UpdateMarks(t: Tables, id: string, status: Status, error: Option<string>, expected: Option<Status>,
                    ends: AgEvent -> bool)
    requires WellFormed(t) && Marked(t, ends) && status.Active()
    ensures Marked(UpdateStatus(t, id, status, error, expected).0, ends)
  {
    var t' := UpdateStatus(t, id, status, error, expected).0;
    if t' != t {
      var i := IndexOf(t.runs, id);
      forall other | FindRun(t'.runs, other).Some?
        ensures EndMarks(FindRun(t'.runs, other).value, LogOf(t', other), ends)
      {
        OtherRow(t.runs, i, t'.runs[i], other);
        var run := FindRun(t.runs, other).value;
        EmptySides(LogOf(t, other));
        MoreEvents(run, FindRun(t'.runs, other).value, LogOf(t, other), [], ends);
      }
    }
  }

  // One active row has ended with this event.
  ghost predicate RowEnded(t: Tables, t': Tables, i: nat, e: Envelope) {
    && i < |t.runs| == |t'.runs| && t'.runs == t.runs[i := t'.runs[i]] && t'.runs[i].runId == t.runs[i].runId
    && i == IndexOf(t.runs, t.runs[i].runId) && t.runs[i].status.Active() && !t'.runs[i].status.Active()
    && Gained(t, t', t.runs[i].runId, [e])
  }

  lemma EndedRowMarks(t: Tables, t': Tables, i: nat, e: Envelope, id: string, ends: AgEvent -> bool)
    requires Marked(t, ends) && RowEnded(t, t', i, e) && ends(e.event) && FindRun(t'.runs, id).Some?
    ensures EndMarks(FindRun(t'.runs, id).value, LogOf(t', id), ends)
  {
    OtherRow(t.runs, i, t'.runs[i], id);
    assert EndMarks(FindRun(t.runs, id).value, LogOf(t, id), ends);
    if id == t.runs[i].runId {
      EndEvent(t.runs[i], t'.runs[i], LogOf(t, id), e, ends);
    }
  }

  lemma TerminalRow(t: Tables, a: TerminalArgs)
    requires WellFormed(t) && Terminalize(t, a).1.Ok? && Terminalize(t, a).1.value.created
    ensures RowEnded(t, Terminalize(t, a).0, IndexOf(t.runs, a.runId), Terminalize(t, a).1.value.envelope)
  {
    TerminalGains(t, a);
  }

  lemma TerminalMarks(t: Tables, a: TerminalArgs, ends: AgEvent -> bool)
    requires WellFormed(t) && Marked(t, ends) && ends(a.event)
    ensures Marked(Terminalize(t, a).0, ends)
  {
    var (t', r) := Terminalize(t, a);
    if r.Ok? && r.value.created {
      TerminalRow(t, a);
      forall id | FindRun(t'.runs, id).Some? ensures EndMarks(FindRun(t'.runs, id).value, LogOf(t', id), ends) {
        EndedRowMarks(t, t', IndexOf(t.runs, a.runId), r.value.envelope, id, ends);
      }
    }
  }

  lemma {:induction false} FindSnoc(runs: seq<Run>, run: Run, id: string)
    ensures FindRun(runs + [run], id)
            == if FindRun(runs, id).Some? then FindRun(runs, id) else if run.runId == id then Some(run) else None
  {
    if runs == [] {
      assert runs + [run] == [run];
    } else {
      assert (runs + [run])[1..] == runs[1..] + [run];
      FindSnoc(runs[1..], run, id);
    }
  }

  lemma CreateMarks(t: Tables, a: CreateArgs, ends: AgEvent -> bool)
    requires WellFormed(t) && Marked(t, ends)
    ensures Marked(CreateRun(t, a).0, ends)
  {
    var t' := CreateRun(t, a).0;
    if t' != t {
      var run := Candidate(a);
      forall id | FindRun(t'.runs, id).Some? ensures EndMarks(FindRun(t'.runs, id).value, LogOf(t', id), ends) {
        FindSnoc(t.runs, run, id);
        LogMembers(t.events, id);
      }
    }
  }

  lemma CommitMarks(t: Tables, op: Op, ends: AgEvent -> bool)
    requires WellFormed(t) && Marked(t, ends) && Served(op, ends)
    ensures Marked(Apply(t, op), ends)
  {
    match op {
      case Create(a) => CreateMarks(t, a, ends);
      case Update(id, status, error, expected) => UpdateMarks(t, id, status, error, expected, ends);
      case Append(a) => AppendMarks(t, a, ends);
      case Terminal(a) => TerminalMarks(t, a, ends);
    }
  }

  // Over every sequence of the server's commits: an active run's log has no event that ends it, and every other run's
  // has exactly one.
  lemma {:induction false} EndsMarkStatus(t: Tables, ops: seq<Op>, ends: AgEvent -> bool)
    requires WellFormed(t) && Marked(t, ends) && forall op :: op in ops ==> Served(op, ends)
    ensures Marked(ApplyAll(t, ops), ends)
    decreases ops
  {
    if ops != [] {
      ApplyKeeps(t, ops[0]);
      CommitMarks(t, ops[0], ends);
      EndsMarkStatus(Apply(t, ops[0]), ops[1..], ends);
    }
  }

  lemma EmptyStoreMarked(ends: AgEvent -> bool)
    ensures Marked(Tables([], []), ends)
  {
  }

  // ---------------------------------------------------------------- one reader through a run of the system

  // A step while the reader is attached: the server's commits, and any subscription but its own unsubscribed.
  ghost predicate Attending(w: World, step: Step, id: nat, ends: AgEvent -> bool) {
    && Proper(w, step) && (step.Commit? ==> Served(step.op, ends))
    && !(step.Unsubscribe? && step.id == id)
  }

  ghost predicate AllAttending(w: World, steps: seq<Step>, id: nat, ends: AgEvent -> bool) {
    forall k :: 0 <= k < |steps| ==> Attending(PerformAll(w, steps[..k]), steps[k], id, ends)
  }

  // The world of an attached reader: its queue is only ever closed by an overflow.
  ghost predicate Attached(w: World, id: nat, runId: string, base: nat, ends: AgEvent -> bool) {
    && Consistent(w) && Marked(w.tables, ends) && id < |w.subs|
    && w.subs[id].runId == runId && w.subs[id].base == base
    && (w.subs[id].queue.closed ==> w.subs[id].queue.overflowed) && KeptWhileAbreast(w, id)
  }

  lemma {:induction false} DeliveredStays(s: Subscriber, capacity: nat, es: seq<Envelope>)
    requires s.queue.closed ==> s.queue.overflowed
    ensures var s' := DeliverAll(s, capacity, es);
            && s'.runId == s.runId && s'.base == s.base && s'.consumed == s.consumed
            && (s'.queue.closed ==> s'.queue.overflowed)
  {
    if es != [] {
      DeliveredStays(s, capacity, es[..|es| - 1]);
    }
  }

  lemma CommitAttached(w: World, op: Op, id: nat, runId: string, base: nat, ends: AgEvent -> bool)
    requires Attached(w, id, runId, base, ends) && Served(op, ends)
    ensures Attached(Perform(w, Commit(op)), id, runId, base, ends)
    ensures Later(w.tables, Perform(w, Commit(op)).tables)
  {
    CommitKeeps(w, op);
    CommitAbreast(w, op, id);
    CommitMarks(w.tables, op, ends);
    ApplyKeeps(w.tables, op);
    DeliveredStays(w.subs[id], w.capacity, Published(w.tables, op));
  }

  lemma StepAttached(w: World, step: Step, id: nat, runId: string, base: nat, ends: AgEvent -> bool)
    requires Attached(w, id, runId, base, ends) && Attending(w, step, id, ends)
    ensures Attached(Perform(w, step), id, runId, base, ends) && Later(w.tables, Perform(w, step).tables)
  {
    if step.Commit? {
      CommitAttached(w, step.op, id, runId, base, ends);
    } else {
      StepConsistent(w, step);
      StepAbreast(w, step, id);
      assert Perform(w, step).tables == w.tables;
    }
  }

  lemma {:induction false} StaysAttached(
    w: World, steps: seq<Step>, id: nat, runId: string, base: nat, ends: AgEvent -> bool)
    requires Attached(w, id, runId, base, ends) && AllAttending(w, steps, id, ends)
    ensures Attached(PerformAll(w, steps), id, runId, base, ends)
    ensures Later(w.tables, PerformAll(w, steps).tables)
  {
    if steps != [] {
      var n := |steps| - 1;
      forall k | 0 <= k < n ensures Attending(PerformAll(w, steps[..n][..k]), steps[..n][k], id, ends) {
        assert steps[..n][..k] == steps[..k];
      }
      StaysAttached(w, steps[..n], id, runId, base, ends);
      assert Attending(PerformAll(w, steps[..n]), steps[n], id, ends);
      StepAttached(PerformAll(w, steps[..n]), steps[n], id, runId, base, ends);
      LaterTwice(w.tables, PerformAll(w, steps[..n]).tables, PerformAll(w, steps).tables);
    }
  }

  // What an attached reader has taken, and what its next receive finds: an event, the overflow, or nothing because it
  // has taken the whole log.
  lemma NextReceive(w: World, id: nat, runId: string, base: nat, ends: AgEvent -> bool)
    requires Attached(w, id, runId, base, ends)
    ensures var s, log := w.subs[id], LogOf(w.tables, runId);
            var received := Receive(s.queue).1;
            && base + |s.consumed| <= |log| && s.consumed == log[base..base + |s.consumed|]
            && (received.Overflowed? <==> Unread(w, id) > w.capacity) && !received.Ended?
            && (received.Empty? ==> base + |s.consumed| == |log|)
  {
    var s, log := w.subs[id], LogOf(w.tables, runId);
    assert InStep(log, w.capacity, s);
    if s.registered {
      if s.queue.items == [] {
        assert s.consumed + [] == log[base..];
      } else {
        assert s.queue.items[0] in s.queue.items;
      }
    }
  }

  // ---------------------------------------------------------------- the whole of attach

  lemma {:induction false} HighWaterIsLength(r: Reading, runId: string, after: nat, bounded: nat)
    requires r.Valid(runId, after, bounded)
    ensures r.HighWater() == |Envelopes(Log(r.Snapshot(), runId))|
  {
    match r {
      case First(rows, _) => PageIsSlice(rows, runId, after, bounded, None);
      case Next(before, _, _) => HighWaterIsLength(before, runId, after, bounded);
    }
  }

  // Returned with everything after `after` through the event that ends the run.
  ghost predicate ReturnedAt(log: seq<Envelope>, after: nat, yielded: seq<Envelope>, n: nat, ends: AgEvent -> bool) {
    after <= n && EndsAt(log, n, ends) && yielded == log[after..n + 1]
  }

  // How a reader that asked for what follows `after` stands: it has returned with everything through the end of the
  // run, or an event or the overflow error is next, or it has everything there is and waits, and then the run has no
  // end after `after`.
  ghost predicate Stands(
    log: seq<Envelope>, after: nat, out: (seq<Envelope>, bool), received: Received, ends: AgEvent -> bool)
  {
    if out.1 then exists n: nat :: ReturnedAt(log, after, out.0, n, ends)
    else
      || received.Got? || received.Overflowed?
      || (received.Empty? && out.0 == Slice(log, after, Max(after, |log|))
          && forall n: nat :: EndsAt(log, n, ends) ==> n < after)
  }

  lemma Joined(log: seq<Envelope>, after: nat, highWater: nat, to: nat)
    requires highWater <= |log| && Max(after, highWater) <= to <= |log|
    ensures Slice(log, after, highWater) + log[Max(after, highWater)..to] == log[after..to]
  {
    if after <= highWater {
      assert log[after..highWater] + log[highWater..to] == log[after..to];
    }
  }

  lemma StandsReturned(
    log: seq<Envelope>, after: nat, highWater: nat, base: nat, to: nat, n: nat, live: (seq<Envelope>, bool),
    received: Received, ends: AgEvent -> bool)
    requires Counted(log) && base <= highWater <= |log| && base <= to <= |log|
    requires Max(after, highWater) <= n < to && EndsAt(log, n, ends)
    requires live == Follow(Max(after, highWater), log[base..to], ends)
    ensures Stands(log, after, (Slice(log, after, highWater) + live.0, live.1), received, ends)
  {
    FollowsToEnd(log, Max(after, highWater), base, to, n, ends);
    Joined(log, after, highWater, n + 1);
    Returns(log, after, Slice(log, after, highWater) + live.0, n, received, ends);
  }

  lemma Returns(
    log: seq<Envelope>, after: nat, yielded: seq<Envelope>, n: nat, received: Received, ends: AgEvent -> bool)
    requires ReturnedAt(log, after, yielded, n, ends)
    ensures Stands(log, after, (yielded, true), received, ends)
  {
  }

  lemma StandsFollowing(
    log: seq<Envelope>, after: nat, highWater: nat, base: nat, to: nat, live: (seq<Envelope>, bool),
    received: Received, ends: AgEvent -> bool)
    requires Counted(log) && base <= highWater <= |log| && base <= to <= |log|
    requires NoEnd(log, 0, highWater, ends) && NoEnd(log, Max(after, highWater), to, ends)
    requires live == Follow(Max(after, highWater), log[base..to], ends)
    requires !received.Ended? && (received.Empty? ==> to == |log|)
    ensures Stands(log, after, (Slice(log, after, highWater) + live.0, live.1), received, ends)
  {
    var cursor := Max(after, highWater);
    FollowsOn(log, cursor, base, to, ends);
    if received.Empty? {
      if cursor <= |log| {
        Joined(log, after, highWater, |log|);
      }
      forall n: nat | EndsAt(log, n, ends) ensures n < after {
        assert !(n < highWater) && !(cursor <= n < to);
      }
    }
  }

  lemma FollowerStands(
    log: seq<Envelope>, run: Run, after: nat, highWater: nat, seen: seq<Envelope>, cursor: nat, base: nat,
    consumed: seq<Envelope>, received: Received, ends: AgEvent -> bool)
    requires Counted(log) && base <= highWater <= |log| && base + |consumed| <= |log|
    requires seen == Slice(log, after, highWater) && cursor == Max(after, highWater)
    requires consumed == log[base..base + |consumed|]
    requires EndMarks(run, log, ends) && NoEnd(log, 0, highWater, ends)
    requires !received.Ended? && (received.Empty? ==> base + |consumed| == |log|)
    ensures var live := Follow(cursor, consumed, ends);
            Stands(log, after, (seen + live.0, live.1), received, ends)
  {
    var to := base + |consumed|;
    var live := Follow(cursor, consumed, ends);
    if n: nat :| cursor <= n < to && EndsAt(log, n, ends) {
      StandsReturned(log, after, highWater, base, to, n, live, received, ends);
    } else {
      StandsFollowing(log, after, highWater, base, to, live, received, ends);
    }
  }

  // How an attached reader stands that saw `seen` of a snapshot.
  ghost predicate ReaderStands(
    w: World, id: nat, runId: string, after: nat, seen: seq<Envelope>, ends: AgEvent -> bool)
  {
    && id < |w.subs| && FindRun(w.tables.runs, runId).Some?
    && EndMarks(FindRun(w.tables.runs, runId).value, LogOf(w.tables, runId), ends)
    && (Receive(w.subs[id].queue).1.Overflowed? <==> Unread(w, id) > w.capacity)
    && var live := Follow(Cursor(after, seen), w.subs[id].consumed, ends);
       Stands(LogOf(w.tables, runId), after, (seen + live.0, live.1), Receive(w.subs[id].queue).1, ends)
  }

  lemma DrainedReaderStands(
    w: World, id: nat, runId: string, base: nat, seen: seq<Envelope>, highWater: nat, after: nat,
    ends: AgEvent -> bool)
    requires Attached(w, id, runId, base, ends) && FindRun(w.tables.runs, runId).Some?
    requires base <= highWater <= |LogOf(w.tables, runId)| && NoEnd(LogOf(w.tables, runId), 0, highWater, ends)
    requires seen == Slice(LogOf(w.tables, runId), after, highWater) && Cursor(after, seen) == Max(after, highWater)
    ensures ReaderStands(w, id, runId, after, seen, ends)
  {
    NextReceive(w, id, runId, base, ends);
    LogCounted(w.tables.events, runId);
    FollowerStands(LogOf(w.tables, runId), FindRun(w.tables.runs, runId).value, after, highWater, seen,
                   Cursor(after, seen), base, w.subs[id].consumed, Receive(w.subs[id].queue).1, ends);
  }

  lemma AttachedFromStart(start: World, runId: string, ends: AgEvent -> bool)
    requires Consistent(start) && Marked(start.tables, ends)
    ensures Attached(Perform(start, Subscribe(runId)), |start.subs|, runId, |LogOf(start.tables, runId)|, ends)
  {
    SubscribeKeeps(start, runId);
  }

  // What a run that is active now had before: no end.
  lemma ActiveHadNoEnd(events: seq<EventRow>, check: Tables, now: Tables, runId: string, ends: AgEvent -> bool)
    requires Marked(check, ends) && events <= check.events <= now.events
    requires FindRun(check.runs, runId).Some? && FindRun(check.runs, runId).value.status.Active()
    ensures NoEnd(LogOf(now, runId), 0, |Envelopes(Log(events, runId))|, ends)
  {
    LogPrefix(events, check.events, runId);
    LogPrefix(check.events, now.events, runId);
    assert EndMarks(FindRun(check.runs, runId).value, LogOf(check, runId), ends);
  }

  // A reader subscribes, drains a snapshot, finds the run active, and follows its subscription. Whatever happens in
  // between and afterwards, it gets the whole log from where it asked through the event that ends the run, unless it is
  // told that it fell behind, which it is exactly when it has left more events unread than its queue holds. It waits
  // only while the run has no end after that place, and an ended run has one end.
  lemma AttachReachesTheEnd(
    start: World, runId: string, before: seq<Step>, r: Reading, after: nat, bounded: nat, since: seq<Step>,
    check: World, now: World, ends: AgEvent -> bool)
    requires Consistent(start) && Marked(start.tables, ends)
    requires AllAttending(Perform(start, Subscribe(runId)), before, |start.subs|, ends)
    requires check == PerformAll(Perform(start, Subscribe(runId)), before)
    requires r.Valid(runId, after, bounded) && bounded > 0 && !r.page.hasMore
    requires start.tables.events <= r.Snapshot() <= check.tables.events
    requires FindRun(check.tables.runs, runId).Some? && FindRun(check.tables.runs, runId).value.status.Active()
    requires AllAttending(check, since, |start.subs|, ends) && now == PerformAll(check, since)
    ensures ReaderStands(now, |start.subs|, runId, after, r.Seen(), ends)
  {
    var id, base := |start.subs|, |LogOf(start.tables, runId)|;
    AttachedFromStart(start, runId, ends);
    StaysAttached(Perform(start, Subscribe(runId)), before, id, runId, base, ends);
    StaysAttached(check, since, id, runId, base, ends);
    FindRunLater(check.tables, now.tables, runId);
    HighWaterIsLength(r, runId, after, bounded);
    LogPrefix(start.tables.events, r.Snapshot(), runId);
    ActiveHadNoEnd(r.Snapshot(), check.tables, now.tables, runId, ends);
    SnapshotDrained(now.tables.events, r, runId, after, bounded);
    DrainedReaderStands(now, id, runId, base, r.Seen(), r.HighWater(), after, ends);
  }
}
