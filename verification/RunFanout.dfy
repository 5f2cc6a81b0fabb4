// harness/server/registry.py, live half: bounded subscriber queues, the broker and the commit-then-publish
// journal, as one transition system over every interleaving of their synchronous steps.
module RunFanout {
  import opened Wrappers
  import opened RunRegistry

  datatype Item = Live(envelope: Envelope) | CloseMark

  datatype Queue = Queue(items: seq<Item>, closed: bool, overflowed: bool)

  datatype Received = Empty | Got(envelope: Envelope) | Ended | Overflowed

  const NEW_QUEUE := Queue([], false, false)

  // RunEventSubscription._close
  function CloseQueue(q: Queue, overflowed: bool): Queue {
    if q.closed then q.(overflowed := q.overflowed || overflowed) else Queue([CloseMark], true, overflowed)
  }

  // put_nowait: refused when the queue is full.
  predicate Accepts(q: Queue, capacity: nat) { |q.items| < capacity }

  function Put(q: Queue, e: Envelope): Queue { q.(items := q.items + [Live(e)]) }

  // What RunEventBroker.publish does to one subscriber of the envelope's run.
  function Offer(q: Queue, capacity: nat, e: Envelope): Queue {
    if Accepts(q, capacity) then Put(q, e) else CloseQueue(q, true)
  }

  // receive_nowait and __anext__: the close marker is put back, so the end is sticky.
  function Receive(q: Queue): (Queue, Received) {
    if q.items == [] then (q, Empty)
    else match q.items[0]
      case Live(e) => (q.(items := q.items[1..]), Got(e))
      case CloseMark => (q.(items := q.items[1..] + [CloseMark]), if q.overflowed then Overflowed else Ended)
  }

  // A closed queue tells the reader one thing, again and again: that it fell behind, or that the stream has ended.
  lemma ClosedForGood(q: Queue, overflowed: bool)
    requires q.closed ==> q.items == [CloseMark]
    ensures var q' := CloseQueue(q, overflowed);
            q'.closed && Receive(q') == (q', if overflowed || (q.closed && q.overflowed) then Overflowed else Ended)
  {
    assert [CloseMark][1..] + [CloseMark] == [CloseMark];
  }

  // ---------------------------------------------------------------- the transition system

  // `base` is the durable high water at subscription time and `consumed` what the reader took so far.
  datatype Subscriber = Subscriber(
    runId: string, base: nat, queue: Queue, registered: bool, consumed: seq<Envelope>)

  datatype World = World(tables: Tables, capacity: nat, subs: seq<Subscriber>)

  datatype Step =
    | Commit(op: Op)
    | Subscribe(runId: string)
    | Unsubscribe(runId: string, id: nat)
    | Take(id: nat)

  function Deliver(s: Subscriber, capacity: nat, e: Envelope): Subscriber {
    if !s.registered || s.runId != e.runId then s
    else s.(queue := Offer(s.queue, capacity, e), registered := Accepts(s.queue, capacity))
  }

  function DeliverAll(s: Subscriber, capacity: nat, es: seq<Envelope>): Subscriber {
    if es == [] then s else Deliver(DeliverAll(s, capacity, es[..|es| - 1]), capacity, es[|es| - 1])
  }

  // The envelopes a journal call publishes: those its transaction inserted.
  function Published(t: Tables, op: Op): seq<Envelope> {
    match op
    case Append(a) => var r := AppendEvents(t, a).1; if r.Ok? then Created(r.value) else []
    case Terminal(a) =>
      var r := Terminalize(t, a).1; if r.Ok? && r.value.created then [r.value.envelope] else []
    case _ => []
  }

  function LogOf(t: Tables, runId: string): seq<Envelope> { Envelopes(Log(t.events, runId)) }

  function Perform(w: World, step: Step): World {
    match step
    case Commit(op) =>
      var es := Published(w.tables, op);
      World(Apply(w.tables, op), w.capacity,
            seq(|w.subs|, i requires 0 <= i < |w.subs| => DeliverAll(w.subs[i], w.capacity, es)))
    case Subscribe(runId) =>
      w.(subs := w.subs + [Subscriber(runId, |LogOf(w.tables, runId)|, NEW_QUEUE, true, [])])
    case Unsubscribe(runId, id) =>
      if id >= |w.subs| then w
      else
        var s := w.subs[id];
        w.(subs := w.subs[id := s.(queue := CloseQueue(s.queue, false),
                                   registered := s.registered && s.runId != runId)])
    case Take(id) =>
      if id >= |w.subs| then w
      else
        var s := w.subs[id];
        var (q, got) := Receive(s.queue);
        w.(subs := w.subs[id := s.(queue := q,
                                   consumed := s.consumed + (if got.Got? then [got.envelope] else []))])
  }

  function PerformAll(w: World, steps: seq<Step>): World {
    if steps == [] then w else Perform(PerformAll(w, steps[..|steps| - 1]), steps[|steps| - 1])
  }

  // ---------------------------------------------------------------- invariant

  function Waiting(items: seq<Item>): seq<Envelope> {
    if items == [] then []
    else Waiting(items[..|items| - 1])
         + (match items[|items| - 1] case Live(e) => [e] case CloseMark => [])
  }

  // The reader has taken a stretch of the log that starts at its base; while it is registered the queue holds the
  // rest of the log; afterwards the queue holds the close marker alone.
  ghost predicate InStep(log: seq<Envelope>, capacity: nat, s: Subscriber) {
    && s.base + |s.consumed| <= |log|
    && s.consumed == log[s.base..s.base + |s.consumed|]
    && (s.registered ==>
          && !s.queue.closed && !s.queue.overflowed && |s.queue.items| <= capacity
          && CloseMark !in s.queue.items
          && s.consumed + Waiting(s.queue.items) == log[s.base..])
    && (!s.registered ==> s.queue.closed && s.queue.items == [CloseMark])
  }

  ghost predicate Consistent(w: World) {
    && WellFormed(w.tables) && w.capacity > 0
    && forall i :: 0 <= i < |w.subs| ==> InStep(LogOf(w.tables, w.subs[i].runId), w.capacity, w.subs[i])
  }

  lemma WaitingSnoc(items: seq<Item>, e: Envelope)
    ensures Waiting(items + [Live(e)]) == Waiting(items) + [e]
  {
    assert (items + [Live(e)])[..|items|] == items;
  }

  lemma {:induction false} WaitingHead(items: seq<Item>)
    requires items != [] && items[0].Live?
    ensures Waiting(items) == [items[0].envelope] + Waiting(items[1..])
  {
    if |items| > 1 {
      WaitingHead(items[..|items| - 1]);
      assert items[..|items| - 1][1..] == items[1..][..|items| - 2];
    } else {
      assert items == [] + [Live(items[0].envelope)];
      WaitingSnoc([], items[0].envelope);
      assert items[1..] == [];
    }
  }

  lemma DeliverKeeps(log: seq<Envelope>, capacity: nat, s: Subscriber, e: Envelope)
    requires InStep(log, capacity, s) && s.runId == e.runId && capacity > 0
    ensures InStep(log + [e], capacity, Deliver(s, capacity, e))
  {
    assert log[s.base..] + [e] == (log + [e])[s.base..];
    assert (log + [e])[s.base..s.base + |s.consumed|] == log[s.base..s.base + |s.consumed|];
    if s.registered && Accepts(s.queue, capacity) {
      WaitingSnoc(s.queue.items, e);
      assert s.consumed + (Waiting(s.queue.items) + [e]) == s.consumed + Waiting(s.queue.items) + [e];
    }
  }

  lemma {:induction false} DeliverAllKeeps(
    log: seq<Envelope>, capacity: nat, s: Subscriber, es: seq<Envelope>)
    requires InStep(log, capacity, s) && capacity > 0
    requires forall e :: e in es ==> e.runId == s.runId
    ensures InStep(log + es, capacity, DeliverAll(s, capacity, es))
    ensures DeliverAll(s, capacity, es).runId == s.runId
  {
    if es == [] {
      assert log + [] == log;
    } else {
      var n := |es| - 1;
      DeliverAllKeeps(log, capacity, s, es[..n]);
      assert log + es == log + es[..n] + [es[n]];
      DeliverKeeps(log + es[..n], capacity, DeliverAll(s, capacity, es[..n]), es[n]);
    }
  }

  lemma {:induction false} DeliverOthers(s: Subscriber, capacity: nat, es: seq<Envelope>)
    requires forall e :: e in es ==> e.runId != s.runId
    ensures DeliverAll(s, capacity, es) == s
  {
    if es != [] {
      DeliverOthers(s, capacity, es[..|es| - 1]);
    }
  }

  // The run a committing operation writes to.
  function RunOf(op: Op): string {
    match op
    case Append(a) => a.runId
    case Terminal(a) => a.runId
    case Update(id, _, _, _) => id
    case Create(a) => ""
  }

  lemma ApplyKeeps(t: Tables, op: Op)
    requires WellFormed(t)
    ensures WellFormed(Apply(t, op)) && Later(t, Apply(t, op))
  {
    EveryRunKeeps(t, [op]);
    assert [op][1..] == [];
    assert ApplyAll(t, [op]) == ApplyAll(Apply(t, op), []);
  }

  // One run's log gained exactly these envelopes, and no other run's log moved.
  ghost predicate Gained(t: Tables, t': Tables, runId: string, es: seq<Envelope>) {
    && LogOf(t', runId) == LogOf(t, runId) + es
    && forall id :: id != runId ==> Log(t'.events, id) == Log(t.events, id)
  }

  lemma GainedNothing(t: Tables, t': Tables, runId: string)
    requires t'.events == t.events
    ensures Gained(t, t', runId, [])
  {
    EmptySides(LogOf(t, runId));
  }

  lemma AppendGains(t: Tables, a: AppendArgs)
    requires WellFormed(t)
    ensures Gained(t, Apply(t, Append(a)), a.runId, Published(t, Append(a)))
  {
    var next := AppendEvents(t, a);
    if next.1.Ok? && a.events != [] {
      BatchGrows(t.events, TargetOf(a, FindRun(t.runs, a.runId).value), a.events, BatchKeys(a).value);
    } else {
      GainedNothing(t, next.0, a.runId);
    }
  }

  lemma TerminalGains(t: Tables, a: TerminalArgs)
    requires WellFormed(t)
    ensures Gained(t, Apply(t, Terminal(a)), a.runId, Published(t, Terminal(a)))
  {
    var next := Terminalize(t, a);
    if next.1.Ok? && next.1.value.created {
      InsertGrows(t.events, next.0.events[|t.events|]);
    } else {
      GainedNothing(t, next.0, a.runId);
    }
  }

  // What is published is exactly what the log of that run gained.
  lemma PublishedIsGrowth(t: Tables, op: Op)
    requires WellFormed(t)
    ensures Gained(t, Apply(t, op), RunOf(op), Published(t, op))
  {
    match op {
      case Append(a) => AppendGains(t, a);
      case Terminal(a) => TerminalGains(t, a);
      case _ => GainedNothing(t, Apply(t, op), RunOf(op));
    }
  }

  lemma LogOfOwned(t: Tables, id: string)
    requires GaplessLogs(t.events)
    ensures forall e :: e in LogOf(t, id) ==> e.runId == id
  {
    var log := Log(t.events, id);
    forall e | e in LogOf(t, id) ensures e.runId == id {
      var k: nat :| k < |log| && log[k].envelope == e;
      assert WellNumbered(log[k], id, k + 1);
    }
  }

  lemma PublishedOwned(t: Tables, op: Op)
    requires WellFormed(t)
    ensures forall e :: e in Published(t, op) ==> e.runId == RunOf(op)
  {
    var id := RunOf(op);
    PublishedIsGrowth(t, op);
    assert GaplessLogs(Apply(t, op).events) by { ApplyKeeps(t, op); }
    LogOfOwned(Apply(t, op), id);
    assert forall e :: e in Published(t, op) ==> e in LogOf(t, id) + Published(t, op);
  }

  lemma CommitKeeps(w: World, op: Op)
    requires Consistent(w)
    ensures Consistent(Perform(w, Commit(op)))
  {
    var w' := Perform(w, Commit(op));
    var es := Published(w.tables, op);
    ApplyKeeps(w.tables, op);
    PublishedIsGrowth(w.tables, op);
    PublishedOwned(w.tables, op);
    forall i | 0 <= i < |w'.subs| ensures InStep(LogOf(w'.tables, w'.subs[i].runId), w'.capacity, w'.subs[i]) {
      var s := w.subs[i];
      if s.runId == RunOf(op) {
        DeliverAllKeeps(LogOf(w.tables, s.runId), w.capacity, s, es);
      } else {
        DeliverOthers(s, w.capacity, es);
      }
    }
  }

  lemma TakeKeeps(log: seq<Envelope>, capacity: nat, s: Subscriber)
    requires InStep(log, capacity, s)
    ensures var (q, got) := Receive(s.queue);
            InStep(log, capacity, s.(queue := q, consumed := s.consumed + (if got.Got? then [got.envelope] else [])))
  {
    var items := s.queue.items;
    if items != [] {
      if items[0].Live? {
        WaitingHead(items);
        var e := items[0].envelope;
        assert s.consumed + ([e] + Waiting(items[1..])) == (s.consumed + [e]) + Waiting(items[1..]);
        assert (s.consumed + [e]) + Waiting(items[1..]) == log[s.base..];
        assert log[s.base..][..|s.consumed| + 1] == s.consumed + [e];
        assert log[s.base..][..|s.consumed| + 1] == log[s.base..s.base + |s.consumed| + 1];
      } else {
        assert items[0] in items;
        assert s.consumed + [] == s.consumed;
      }
    }
  }

  // Unsubscribing is safe exactly when the caller names the run it subscribed to (or was dropped already):
  // under another run id the closed subscription stays in its subscriber set.
  lemma UnsubscribeKeepsIff(w: World, runId: string, id: nat)
    requires Consistent(w) && id < |w.subs|
    ensures Consistent(Perform(w, Unsubscribe(runId, id)))
            <==> w.subs[id].runId == runId || !w.subs[id].registered
  {
    var w' := Perform(w, Unsubscribe(runId, id));
    var s := w.subs[id];
    assert InStep(LogOf(w.tables, s.runId), w.capacity, s);
    forall i | 0 <= i < |w.subs| && i != id ensures w'.subs[i] == w.subs[i] {
    }
    if s.runId != runId && s.registered {
      assert !InStep(LogOf(w.tables, s.runId), w.capacity, w'.subs[id]);
      assert w'.subs[id].runId == s.runId;
    }
  }

  // Under another run id than its own a new subscriber is closed and yet stays registered.
  lemma ForeignUnsubscribe(runId: string, other: string, capacity: nat)
    requires runId != other && capacity > 0
    ensures var w := Perform(World(Tables([], []), capacity, []), Subscribe(runId));
            var w' := Perform(w, Unsubscribe(other, 0));
            && Consistent(w) && !Consistent(w')
            && w'.subs[0].queue.closed && w'.subs[0].registered
  {
    var start := World(Tables([], []), capacity, []);
    EmptyStoreWellFormed();
    SubscribeKeeps(start, runId);
    UnsubscribeKeepsIff(Perform(start, Subscribe(runId)), other, 0);
  }

  // A step a caller may take: it unsubscribes only from the run it subscribed to.
  ghost predicate Proper(w: World, step: Step) {
    step.Unsubscribe? && step.id < |w.subs| ==> w.subs[step.id].runId == step.runId
  }

  ghost predicate AllProper(w: World, steps: seq<Step>) {
    forall k :: 0 <= k < |steps| ==> Proper(PerformAll(w, steps[..k]), steps[k])
  }

  lemma StepConsistent(w: World, step: Step)
    requires Consistent(w) && Proper(w, step)
    ensures Consistent(Perform(w, step))
  {
    match step {
      case Commit(op) => CommitKeeps(w, op);
      case Subscribe(runId) => SubscribeKeeps(w, runId);
      case Unsubscribe(runId, id) =>
        if id < |w.subs| {
          UnsubscribeKeepsIff(w, runId, id);
        }
      case Take(id) =>
        if id < |w.subs| {
          TakeKeeps(LogOf(w.tables, w.subs[id].runId), w.capacity, w.subs[id]);
        }
    }
  }

  // Over every interleaving of commits, subscriptions, reads and unsubscriptions.
  lemma {:induction false} EveryInterleavingConsistent(w: World, steps: seq<Step>)
    requires Consistent(w) && AllProper(w, steps)
    ensures Consistent(PerformAll(w, steps))
  {
    if steps != [] {
      var n := |steps| - 1;
      var mid := PerformAll(w, steps[..n]);
      forall k | 0 <= k < n ensures Proper(PerformAll(w, steps[..n][..k]), steps[..n][k]) {
        assert steps[..n][..k] == steps[..k];
      }
      EveryInterleavingConsistent(w, steps[..n]);
      assert Proper(mid, steps[n]);
      StepConsistent(mid, steps[n]);
    }
  }

  lemma SubscribeKeeps(w: World, runId: string)
    requires Consistent(w)
    ensures Consistent(Perform(w, Subscribe(runId)))
  {
    var log := LogOf(w.tables, runId);
    assert log[|log|..] == [] == log[|log|..|log| + 0];
    assert [] + Waiting([]) == [];
  }

  // Replay up to the subscription's base followed by what it consumed is always a prefix of the durable log,
  // and the consumed sequences are base + 1, base + 2, ... without a gap.
  lemma ReplayThenLiveIsPrefix(w: World, id: nat)
    requires Consistent(w) && id < |w.subs|
    ensures var s := w.subs[id];
            var log := LogOf(w.tables, s.runId);
            && s.base <= |log|
            && log[..s.base] + s.consumed <= log
            && forall k :: 0 <= k < |s.consumed| ==> s.consumed[k].sequence == s.base + k + 1
  {
    var s := w.subs[id];
    var log := LogOf(w.tables, s.runId);
    assert InStep(log, w.capacity, s);
    assert log[..s.base] + log[s.base..s.base + |s.consumed|] == log[..s.base + |s.consumed|];
    LogCounted(w.tables.events, s.runId);
  }

  // ---------------------------------------------------------------- how far a reader may fall behind

  // Events logged since the subscription that the reader has not taken.
  function Unread(w: World, id: nat): int
    requires id < |w.subs|
  {
    |LogOf(w.tables, w.subs[id].runId)| - w.subs[id].base - |w.subs[id].consumed|
  }

  lemma {:induction false} WaitingLength(items: seq<Item>)
    requires CloseMark !in items
    ensures |Waiting(items)| == |items|
  {
    if items != [] {
      SplitLast(items);
      WaitingLength(items[..|items| - 1]);
    }
  }

  // A queue with room for all of the events takes them all; one without drops its reader.
  lemma {:induction false} DeliveredIff(s: Subscriber, capacity: nat, es: seq<Envelope>)
    requires s.registered && |s.queue.items| <= capacity && forall e :: e in es ==> e.runId == s.runId
    ensures var s' := DeliverAll(s, capacity, es);
            && (s'.registered <==> |s.queue.items| + |es| <= capacity)
            && (s'.registered ==> |s'.queue.items| == |s.queue.items| + |es|)
  {
    if es != [] {
      DeliveredIff(s, capacity, es[..|es| - 1]);
      DeliveredSame(s, capacity, es[..|es| - 1]);
    }
  }

  lemma {:induction false} DeliveredSame(s: Subscriber, capacity: nat, es: seq<Envelope>)
    ensures var s' := DeliverAll(s, capacity, es);
            && s'.runId == s.runId && s'.base == s.base && s'.consumed == s.consumed
            && (!s.registered ==> s' == s)
  {
    if es != [] {
      DeliveredSame(s, capacity, es[..|es| - 1]);
    }
  }

  lemma QueuedIsUnread(w: World, id: nat)
    requires Consistent(w) && id < |w.subs| && w.subs[id].registered
    ensures |w.subs[id].queue.items| == Unread(w, id) <= w.capacity
  {
    var s, log := w.subs[id], LogOf(w.tables, w.subs[id].runId);
    assert InStep(log, w.capacity, s);
    WaitingLength(s.queue.items);
    assert |s.consumed + Waiting(s.queue.items)| == |log[s.base..]|;
  }

  // A registered reader stays registered through a commit, with every event of its run that it has not taken queued in
  // order, exactly when those events are no more than the queue holds.
  lemma StaysRegisteredIff(w: World, op: Op, id: nat)
    requires Consistent(w) && id < |w.subs| && w.subs[id].registered
    ensures var w' := Perform(w, Commit(op));
            var (s, log') := (w'.subs[id], LogOf(w'.tables, w.subs[id].runId));
            && w.subs[id].base + |w.subs[id].consumed| <= |log'|
            && (s.registered <==> Unread(w', id) <= w.capacity)
            && (s.registered ==> Waiting(s.queue.items) == log'[w.subs[id].base + |w.subs[id].consumed|..])
  {
    var s', w' := Perform(w, Commit(op)).subs[id], Perform(w, Commit(op));
    RegisteredIff(w, op, id);
    DeliveredSame(w.subs[id], w.capacity, Published(w.tables, op));
    assert InStep(LogOf(w'.tables, s'.runId), w'.capacity, s') by {
      CommitKeeps(w, op);
    }
    if s'.registered {
      QueueIsRest(LogOf(w'.tables, s'.runId), w'.capacity, s');
    }
  }

  lemma RegisteredIff(w: World, op: Op, id: nat)
    requires Consistent(w) && id < |w.subs| && w.subs[id].registered
    ensures var w' := Perform(w, Commit(op)); w'.subs[id].registered <==> Unread(w', id) <= w.capacity
  {
    var s, es := w.subs[id], Published(w.tables, op);
    QueuedIsUnread(w, id);
    PublishedIsGrowth(w.tables, op);
    PublishedOwned(w.tables, op);
    DeliveredSame(s, w.capacity, es);
    if s.runId == RunOf(op) {
      DeliveredIff(s, w.capacity, es);
    } else {
      DeliverOthers(s, w.capacity, es);
    }
  }

  lemma QueueIsRest(log: seq<Envelope>, capacity: nat, s: Subscriber)
    requires InStep(log, capacity, s) && s.registered
    ensures Waiting(s.queue.items) == log[s.base + |s.consumed|..]
  {
    var waiting := Waiting(s.queue.items);
    assert (s.consumed + waiting)[|s.consumed|..] == waiting;
    assert log[s.base..][|s.consumed|..] == log[s.base + |s.consumed|..];
  }

  // Dropped is behind, by more than the queue holds.
  ghost predicate KeptWhileAbreast(w: World, id: nat) {
    id < |w.subs| && (w.subs[id].registered <==> Unread(w, id) <= w.capacity)
  }

  lemma CommitAbreast(w: World, op: Op, id: nat)
    requires Consistent(w) && KeptWhileAbreast(w, id)
    ensures KeptWhileAbreast(Perform(w, Commit(op)), id)
  {
    DeliveredSame(w.subs[id], w.capacity, Published(w.tables, op));
    if w.subs[id].registered {
      StaysRegisteredIff(w, op, id);
    } else {
      PublishedIsGrowth(w.tables, op);
    }
  }

  lemma StepAbreast(w: World, step: Step, id: nat)
    requires Consistent(w) && KeptWhileAbreast(w, id) && !(step.Unsubscribe? && step.id == id)
    ensures KeptWhileAbreast(Perform(w, step), id)
  {
    match step {
      case Commit(op) => CommitAbreast(w, op, id);
      case Take(taken) =>
        if taken == id {
          assert InStep(LogOf(w.tables, w.subs[id].runId), w.capacity, w.subs[id]);
        }
      case _ =>
    }
  }

  // Over every interleaving, a reader that does not unsubscribe has been dropped exactly when it has left more events
  // unread than its queue holds; until then it misses none.
  lemma {:induction false} DroppedIffBehind(w: World, steps: seq<Step>, id: nat)
    requires Consistent(w) && AllProper(w, steps) && KeptWhileAbreast(w, id)
    requires forall k :: 0 <= k < |steps| && steps[k].Unsubscribe? ==> steps[k].id != id
    ensures KeptWhileAbreast(PerformAll(w, steps), id)
  {
    if steps != [] {
      var n := |steps| - 1;
      forall k | 0 <= k < n ensures Proper(PerformAll(w, steps[..n][..k]), steps[..n][k]) {
        assert steps[..n][..k] == steps[..k];
      }
      EveryInterleavingConsistent(w, steps[..n]);
      DroppedIffBehind(w, steps[..n], id);
      StepAbreast(PerformAll(w, steps[..n]), steps[n], id);
    }
  }

  lemma SubscribesAbreast(w: World, runId: string)
    ensures KeptWhileAbreast(Perform(w, Subscribe(runId)), |w.subs|)
  {
  }

  // ---------------------------------------------------------------- attach: snapshot pages, then the subscription

  // The live loop of attach: skip what the snapshot already yielded, forward the rest.
  function Forward(cursor: nat, live: seq<Envelope>): seq<Envelope>
    decreases |live|
  {
    if live == [] then []
    else if live[0].sequence <= cursor then Forward(cursor, live[1..])
    else [live[0]] + Forward(live[0].sequence, live[1..])
  }

  lemma {:induction false} ForwardSkips(log: seq<Envelope>, cursor: nat, from: nat, to: nat)
    requires from <= to <= |log|
    requires forall k :: 0 <= k < |log| ==> log[k].sequence == k + 1
    requires from <= cursor
    ensures Forward(cursor, log[from..to]) == Slice(log, cursor, Max(cursor, to))
    decreases |log| - from
  {
    if from < to {
      var live := log[from..to];
      assert live[0] == log[from] && live[1..] == log[from + 1..to];
      if from + 1 <= cursor {
        ForwardSkips(log, cursor, from + 1, to);
      } else {
        ForwardSkips(log, from + 1, from + 1, to);
        assert [log[from]] + log[from + 1..to] == log[from..to];
      }
    }
  }

  // Draining the snapshot leaves the cursor at its high water (or where the reader started, if that is later).
  lemma SnapshotDrained(now: seq<EventRow>, r: Reading, runId: string, after: nat, bounded: nat)
    requires r.Valid(runId, after, bounded) && bounded > 0 && !r.page.hasMore
    requires GaplessLogs(now) && r.Snapshot() <= now
    ensures r.HighWater() <= |Envelopes(Log(now, runId))|
    ensures Cursor(after, r.Seen()) == Max(after, r.HighWater())
    ensures r.Seen() == Slice(Envelopes(Log(now, runId)), after, r.HighWater())
  {
    PagingIsExact(r, runId, after, bounded);
    ReadingGrows(r, runId, after, bounded);
    LogPrefix(r.Snapshot(), now, runId);
    SnapshotCursor(r.Snapshot(), runId, after, r.Seen());
    SlicePrefix(Envelopes(Log(r.Snapshot(), runId)), Envelopes(Log(now, runId)), after);
  }

  lemma SlicePrefix(log: seq<Envelope>, log': seq<Envelope>, after: nat)
    requires log <= log'
    ensures Slice(log', after, |log|) == Slice(log, after, |log|)
  {
    if after <= |log| {
      assert log'[after..|log|] == log[after..|log|];
    }
  }

  lemma SnapshotCursor(events: seq<EventRow>, runId: string, after: nat, seen: seq<Envelope>)
    requires GaplessLogs(events)
    requires seen == Slice(Envelopes(Log(events, runId)), after, |Envelopes(Log(events, runId))|)
    ensures Cursor(after, seen) == Max(after, |Envelopes(Log(events, runId))|)
  {
    if seen != [] {
      CursorAtEnd(events, runId, after, seen);
    }
  }

  lemma JoinSlices(log: seq<Envelope>, after: nat, highWater: nat, base: nat, to: nat)
    requires base <= highWater <= |log| && base <= to <= |log|
    requires Counted(log)
    ensures var cursor := Max(after, highWater);
            Slice(log, after, highWater) + Forward(cursor, log[base..to]) == Slice(log, after, Max(cursor, to))
  {
    var cursor := Max(after, highWater);
    ForwardSkips(log, cursor, base, to);
    if after <= highWater {
      assert log[after..highWater] + log[highWater..Max(highWater, to)] == log[after..Max(highWater, to)];
    }
  }

  ghost predicate Counted(log: seq<Envelope>) { forall k :: 0 <= k < |log| ==> log[k].sequence == k + 1 }

  lemma LogCounted(events: seq<EventRow>, runId: string)
    requires GaplessLogs(events)
    ensures Counted(Envelopes(Log(events, runId)))
  {
    var rows := Log(events, runId);
    forall k | 0 <= k < |rows| ensures Envelopes(rows)[k].sequence == k + 1 {
      assert WellNumbered(rows[k], runId, k + 1);
    }
  }

  // A reader that subscribes first (at high water `base`), then drains a snapshot taken no earlier, then forwards
  // live events past its cursor, yields one gapless stretch of the log from its own starting point.
  lemma AttachIsGapless(
    now: seq<EventRow>, r: Reading, runId: string, after: nat, bounded: nat, base: nat, taken: nat)
    requires r.Valid(runId, after, bounded) && bounded > 0 && !r.page.hasMore
    requires GaplessLogs(now) && r.Snapshot() <= now
    requires base <= r.HighWater() && base + taken <= |Envelopes(Log(now, runId))|
    ensures var log := Envelopes(Log(now, runId));
            var cursor := Cursor(after, r.Seen());
            var yielded := r.Seen() + Forward(cursor, log[base..base + taken]);
            yielded == Slice(log, after, Max(Max(after, r.HighWater()), base + taken))
  {
    SnapshotDrained(now, r, runId, after, bounded);
    LogCounted(now, runId);
    JoinForward(Envelopes(Log(now, runId)), after, r.HighWater(), r.Seen(), Cursor(after, r.Seen()), base, taken);
  }

  lemma JoinForward(
    log: seq<Envelope>, after: nat, highWater: nat, seen: seq<Envelope>, cursor: nat, base: nat, taken: nat)
    requires Counted(log) && base <= highWater <= |log| && base + taken <= |log|
    requires seen == Slice(log, after, highWater) && cursor == Max(after, highWater)
    ensures seen + Forward(cursor, log[base..base + taken])
            == Slice(log, after, Max(Max(after, highWater), base + taken))
  {
    JoinSlices(log, after, highWater, base, base + taken);
  }

  // The part of a log after a cursor, which may lie beyond its end.
  function Rest(log: seq<Envelope>, cursor: nat): seq<Envelope> { if cursor <= |log| then log[cursor..] else [] }

  // The page that reads out a finished run.
  function Tail(events: seq<EventRow>, runId: string, cursor: nat): seq<Envelope> {
    SelectPage(Log(events, runId), cursor, 1_000, None).events
  }

  // The reader gets the rest of the log exactly when no more than 1000 events follow its cursor.
  lemma TerminalTailCompleteIff(events: seq<EventRow>, runId: string, cursor: nat)
    requires GaplessLogs(events)
    ensures var log := Envelopes(Log(events, runId));
            && Tail(events, runId, cursor) <= Rest(log, cursor)
            && (Tail(events, runId, cursor) == Rest(log, cursor) <==> |log| <= cursor + 1_000)
  {
    PageIsSlice(events, runId, cursor, 1_000, None);
  }

  lemma {:induction false} UnkeyedBatch(
    rows: seq<EventRow>, target: Target, events: seq<AgEvent>, keys: seq<Option<string>>)
    requires |events| == |keys| && forall k :: 0 <= k < |keys| ==> keys[k].None?
    ensures var r := AppendBatch(rows, target, events, keys);
            && r.Ok? && |Log(r.value.0, target.runId)| == |Log(rows, target.runId)| + |events|
            && forall row :: row in r.value.0 ==> row in rows || row.sourceKey.None?
  {
    if events != [] {
      var n := |events| - 1;
      UnkeyedBatch(rows, target, events[..n], keys[..n]);
      var mid := AppendBatch(rows, target, events[..n], keys[..n]).value.0;
      var row := AppendOne(mid, target, events[n], keys[n]).value.0[|mid|];
      LogSnoc(mid, row, target.runId);
    }
  }

  function UnkeyedEvents(runId: string, event: AgEvent, n: nat): Op {
    Append(AppendArgs(runId, seq(n, _ => event), true, None, None, None))
  }

  lemma UnkeyedGrows(t: Tables, runId: string, event: AgEvent, n: nat)
    requires FindRun(t.runs, runId).Some? && event.runId.None? && n > 0
    ensures var t' := Apply(t, UnkeyedEvents(runId, event, n));
            && t'.runs == t.runs && |LogOf(t', runId)| == |LogOf(t, runId)| + n
            && forall row :: row in t'.events ==> row in t.events || row.sourceKey.None?
  {
    var a := UnkeyedEvents(runId, event, n).append;
    assert BatchKeys(a) == Ok(seq(n, i => None));
    UnkeyedBatch(t.events, TargetOf(a, FindRun(t.runs, runId).value), a.events, BatchKeys(a).value);
  }

  function Finishing(runId: string, event: AgEvent): Op {
    Terminal(TerminalArgs(runId, Completed, event, "server:run-finished", Running, None))
  }

  lemma RunningFinishes(t: Tables, run: Run, event: AgEvent)
    requires t.runs == [run] && run.status == Running && event.runId.None?
    requires forall row :: row in t.events ==> row.sourceKey.None?
    ensures var t' := Apply(t, Finishing(run.runId, event));
            && FindRun(t'.runs, run.runId) == Some(run.(status := Completed, error := None))
            && |LogOf(t', run.runId)| == |LogOf(t, run.runId)| + 1
  {
    var r := Terminalize(t, Finishing(run.runId, event).terminal);
    assert FindKey(t.events, run.runId, "server:run-finished").None?;
    LogSnoc(t.events, r.0.events[|t.events|], run.runId);
  }

  // A new run that starts and gains its first event.
  function Started(c: CreateArgs, event: AgEvent): Tables {
    var runId := Candidate(c).runId;
    var running := Apply(Apply(Tables([], []), Create(c)), Update(runId, Running, None, Some(Queued)));
    Apply(running, UnkeyedEvents(runId, event, 1))
  }

  // The same run after 1001 more events and its end.
  function Flooded(c: CreateArgs, event: AgEvent): Tables {
    var runId := Candidate(c).runId;
    Apply(Apply(Started(c, event), UnkeyedEvents(runId, event, 1_001)), Finishing(runId, event))
  }

  lemma StartedRun(c: CreateArgs, event: AgEvent)
    requires ValidRecord(Candidate(c)) && event.runId.None?
    ensures var t, run := Started(c, event), Candidate(c).(status := Running);
            && WellFormed(t) && t.runs == [run] && |LogOf(t, run.runId)| == 1
            && forall row :: row in t.events ==> row.sourceKey.None?
  {
    var run := Candidate(c);
    var created := Apply(Tables([], []), Create(c));
    assert created == Tables([run], []);
    var start := Update(run.runId, Running, None, Some(Queued));
    var running := Apply(created, start);
    assert running == Tables([run.(status := Running)], []);
    EmptyStoreWellFormed();
    ApplyKeeps(Tables([], []), Create(c));
    ApplyKeeps(created, start);
    ApplyKeeps(running, UnkeyedEvents(run.runId, event, 1));
    UnkeyedGrows(running, run.runId, event, 1);
  }

  // The reader's page of it.
  lemma FirstPage(t: Tables, runId: string)
    requires WellFormed(t) && |LogOf(t, runId)| == 1
    ensures var page := SelectPage(Log(t.events, runId), 0, 1_000, None);
            page.events == LogOf(t, runId) && !page.hasMore && Cursor(0, page.events) == 1
  {
    PageIsSlice(t.events, runId, 0, 1_000, None);
    assert WellNumbered(Log(t.events, runId)[0], runId, 1);
  }

  lemma FloodedRun(t: Tables, run: Run, event: AgEvent)
    requires WellFormed(t) && t.runs == [run] && run.status == Running && event.runId.None?
    requires |LogOf(t, run.runId)| == 1 && forall row :: row in t.events ==> row.sourceKey.None?
    ensures var t' := Apply(Apply(t, UnkeyedEvents(run.runId, event, 1_001)), Finishing(run.runId, event));
            && WellFormed(t') && |LogOf(t', run.runId)| == 1_003
            && FindRun(t'.runs, run.runId) == Some(run.(status := Completed, error := None))
  {
    var full := Apply(t, UnkeyedEvents(run.runId, event, 1_001));
    UnkeyedGrows(t, run.runId, event, 1_001);
    RunningFinishes(full, run, event);
    ApplyKeeps(t, UnkeyedEvents(run.runId, event, 1_001));
    ApplyKeeps(full, Finishing(run.runId, event));
  }

  // A reader of the started run drains a page of one event. While that event is yielded, the run gains 1001 more and
  // finishes: the reader, now at cursor 1, finds it finished and reads 1000 of the 1002 events that follow.
  lemma TerminalTailIsCut(c: CreateArgs, event: AgEvent)
    requires ValidRecord(Candidate(c)) && event.runId.None?
    ensures var (t, t', runId) := (Started(c, event), Flooded(c, event), Candidate(c).runId);
            var page := SelectPage(Log(t.events, runId), 0, 1_000, None);
            && page.events == LogOf(t, runId) && !page.hasMore && Cursor(0, page.events) == 1
            && WellFormed(t') && FindRun(t'.runs, runId) == Some(Candidate(c).(status := Completed))
            && |Rest(LogOf(t', runId), 1)| == 1_002 && |Tail(t'.events, runId, 1)| == 1_000
  {
    var run := Candidate(c).(status := Running);
    StartedRun(c, event);
    FirstPage(Started(c, event), run.runId);
    FloodedRun(Started(c, event), run, event);
    TailOfThousand(Flooded(c, event).events, run.runId);
  }

  lemma TailOfThousand(events: seq<EventRow>, runId: string)
    requires GaplessLogs(events) && |Envelopes(Log(events, runId))| > 1_000
    ensures |Tail(events, runId, 1)| == 1_000
  {
    PageIsSlice(events, runId, 1, 1_000, None);
  }
}
