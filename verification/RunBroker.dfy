// RunEventSubscription, RunEventBroker and DurableRunEventJournal over the heap, each method tied to RunFanout.
module RunBroker {
  import opened Wrappers
  import opened RunRegistry
  import opened RunFanout
  import opened RunStore

  class RunEventSubscription {
    const capacity: nat
    var items: seq<Item>
    var closed: bool
    var overflowed: bool

    function State(): Queue
      reads this
    {
      Queue(items, closed, overflowed)
    }

    constructor (capacity: nat)
      ensures State() == NEW_QUEUE && this.capacity == capacity
    {
      this.capacity := capacity;
      items, closed, overflowed := [], false, false;
    }

    method PutNowait(e: Envelope) returns (accepted: bool)
      modifies this
      ensures accepted == Accepts(old(State()), capacity) == (|old(items)| < capacity)
      ensures State() == if accepted then Put(old(State()), e) else old(State())
    {
      accepted := |items| < capacity;
      if accepted {
        items := items + [Live(e)];
      }
    }

    method ReceiveNowait() returns (r: Received)
      modifies this
      ensures (State(), r) == Receive(old(State()))
    {
      if items == [] {
        return Empty;
      }
      var item := items[0];
      items := items[1..];
      if item.CloseMark? {
        items := items + [CloseMark];
        return if overflowed then Overflowed else Ended;
      }
      return Got(item.envelope);
    }

    method Close(overflow: bool)
      modifies this
      ensures State() == CloseQueue(old(State()), overflow)
    {
      if closed {
        overflowed := overflowed || overflow;
        return;
      }
      closed := true;
      overflowed := overflow;
      while items != []
        invariant closed && overflowed == overflow
        decreases |items|
      {
        items := items[1..];
      }
      items := items + [CloseMark];
    }
  }

  // What a batch of publications does to one registered queue: it stops at the first overflow.
  function OfferAll(q: Queue, capacity: nat, es: seq<Envelope>): (Queue, bool) {
    if es == [] then (q, true)
    else
      var (q', kept) := OfferAll(q, capacity, es[..|es| - 1]);
      if !kept then (q', false) else (Offer(q', capacity, es[|es| - 1]), Accepts(q', capacity))
  }

  // The queue semantics of the broker is the delivery step of the transition system.
  lemma {:induction false} OfferAllIsDelivery(s: Subscriber, capacity: nat, es: seq<Envelope>)
    requires s.registered && forall e :: e in es ==> e.runId == s.runId
    ensures var (q, kept) := OfferAll(s.queue, capacity, es);
            DeliverAll(s, capacity, es) == s.(queue := q, registered := kept)
  {
    if es != [] {
      OfferAllIsDelivery(s, capacity, es[..|es| - 1]);
    }
  }

  // A queue takes a batch whole, in order, exactly when it has room for all of it.
  lemma {:induction false} OfferAllIff(q: Queue, capacity: nat, es: seq<Envelope>)
    requires |q.items| <= capacity
    ensures var (q', kept) := OfferAll(q, capacity, es);
            && (kept <==> |q.items| + |es| <= capacity)
            && (kept ==> q' == q.(items := q.items + seq(|es|, i requires 0 <= i < |es| => Live(es[i]))))
  {
    if es != [] {
      OfferAllIff(q, capacity, es[..|es| - 1]);
    }
  }

  class RunEventBroker {
    const capacity: nat
    var subscribers: map<string, set<RunEventSubscription>>

    function Members(runId: string): set<RunEventSubscription>
      reads this
    {
      if runId in subscribers then subscribers[runId] else {}
    }

    ghost predicate Valid()
      reads this
    {
      && capacity > 0
      && (forall id :: id in subscribers ==> subscribers[id] != {})
      && (forall id, s :: id in subscribers && s in subscribers[id] ==> s.capacity == capacity)
    }

    constructor (capacity: nat)
      requires capacity > 0
      ensures Valid() && this.capacity == capacity && subscribers == map[]
    {
      this.capacity := capacity;
      subscribers := map[];
    }

    method Subscribe(runId: string) returns (s: RunEventSubscription)
      requires Valid()
      modifies this
      ensures Valid() && fresh(s) && s.State() == NEW_QUEUE
      ensures Members(runId) == old(Members(runId)) + {s}
      ensures forall id :: id != runId ==> Members(id) == old(Members(id))
    {
      s := new RunEventSubscription(capacity);
      subscribers := subscribers[runId := Members(runId) + {s}];
    }

    method Unsubscribe(runId: string, s: RunEventSubscription)
      requires Valid()
      modifies this, s
      ensures Valid() && s.State() == CloseQueue(old(s.State()), false)
      ensures Members(runId) == old(Members(runId)) - {s}
      ensures forall id :: id != runId ==> Members(id) == old(Members(id))
    {
      Discard(runId, {s});
      s.Close(false);
    }

    // subscribers.discard for each, then dropping an emptied entry.
    method Discard(runId: string, gone: set<RunEventSubscription>)
      requires Valid()
      modifies this
      ensures Valid()
      ensures Members(runId) == old(Members(runId)) - gone
      ensures forall id :: id != runId ==> Members(id) == old(Members(id))
    {
      if runId in subscribers {
        var left := subscribers[runId] - gone;
        if left == {} {
          subscribers := subscribers - {runId};
        } else {
          subscribers := subscribers[runId := left];
        }
      }
    }

    // Every subscriber of the run is offered the envelope; those that were full are dropped and closed.
    method Publish(e: Envelope) returns (delivered: nat)
      requires Valid()
      modifies this, Members(e.runId)
      ensures Valid()
      ensures forall s :: s in old(Members(e.runId)) ==> s.State() == Offer(old(s.State()), capacity, e)
      ensures Members(e.runId) == set s | s in old(Members(e.runId)) && old(Accepts(s.State(), capacity))
      ensures forall id :: id != e.runId ==> Members(id) == old(Members(id))
      ensures delivered == |Members(e.runId)|
    {
      var stale, kept := PutEach(e, Members(e.runId), capacity);
      Drop(e.runId, stale);
      assert Members(e.runId) == kept;
      delivered := |kept|;
    }

    // The subscribers that did not keep up leave the set and are closed as overflowed.
    method Drop(runId: string, stale: set<RunEventSubscription>)
      requires Valid()
      modifies this, stale
      ensures Valid() && Members(runId) == old(Members(runId)) - stale
      ensures forall id :: id != runId ==> Members(id) == old(Members(id))
      ensures forall s :: s in stale ==> s.State() == CloseQueue(old(s.State()), true)
    {
      Discard(runId, stale);
      CloseEach(stale);
    }

    static method PutEach(e: Envelope, all: set<RunEventSubscription>, capacity: nat)
      returns (stale: set<RunEventSubscription>, kept: set<RunEventSubscription>)
      requires forall s :: s in all ==> s.capacity == capacity
      modifies all
      ensures kept == (set s | s in all && old(Accepts(s.State(), capacity))) && stale == all - kept
      ensures forall s :: s in all ==> s.State() == if s in kept then Put(old(s.State()), e) else old(s.State())
    {
      var todo := all;
      stale, kept := {}, {};
      while todo != {}
        invariant forall s :: s in todo || s in stale ==> s in all && s !in kept && s.State() == old(s.State())
        invariant forall s :: s in all ==> s in todo || s in stale || s in kept
        invariant forall s :: s in stale ==> !old(Accepts(s.State(), capacity))
        invariant forall s :: s in kept ==> s in all && old(Accepts(s.State(), capacity))
        invariant forall s :: s in kept ==> s.State() == Put(old(s.State()), e)
        decreases |todo|
      {
        var s :| s in todo;
        todo := todo - {s};
        var accepted := s.PutNowait(e);
        if accepted {
          kept := kept + {s};
        } else {
          stale := stale + {s};
        }
      }
    }

    static method CloseEach(stale: set<RunEventSubscription>)
      modifies stale
      ensures forall s :: s in stale ==> s.State() == CloseQueue(old(s.State()), true)
    {
      var closing := stale;
      while closing != {}
        invariant closing <= stale
        invariant forall s :: s in closing ==> s.State() == old(s.State())
        invariant forall s :: s in stale - closing ==> s.State() == CloseQueue(old(s.State()), true)
        decreases |closing|
      {
        var s :| s in closing;
        closing := closing - {s};
        s.Close(true);
      }
    }
  }

  // Durable commit first, then live publication of what the commit inserted.
  class DurableRunEventJournal {
    const store: SqliteRunEventStore
    const broker: RunEventBroker

    constructor (store: SqliteRunEventStore, broker: RunEventBroker)
      ensures this.store == store && this.broker == broker
    {
      this.store, this.broker := store, broker;
    }

    method AppendEvents(a: AppendArgs) returns (r: Result<seq<Envelope>, StoreError>)
      requires store.Valid() && broker.Valid()
      modifies store`events, broker, broker.Members(a.runId)
      ensures store.Valid() && broker.Valid()
      ensures store.View() == Apply(old(store.View()), Append(a))
      ensures var es := Published(old(store.View()), Append(a));
              && (forall s :: s in old(broker.Members(a.runId)) ==>
                    s.State() == OfferAll(old(s.State()), broker.capacity, es).0)
              && broker.Members(a.runId) == (set s | s in old(broker.Members(a.runId))
                                                     && OfferAll(old(s.State()), broker.capacity, es).1)
      ensures forall id :: id != a.runId ==> broker.Members(id) == old(broker.Members(id))
      ensures var o := RunRegistry.AppendEvents(old(store.View()), a).1;
              r == if o.Err? then Err(o.error)
                   else Ok(seq(|o.value|, i requires 0 <= i < |o.value| => o.value[i].envelope))
    {
      PublishedOwned(store.View(), Append(a));
      var outcome := store.Append(a);
      if outcome.Err? {
        return Err(outcome.error);
      }
      var results := outcome.value;
      PublishCreated(a.runId, results);
      return Ok(seq(|results|, i requires 0 <= i < |results| => results[i].envelope));
    }

    // for result in results: if result.created: publish
    method PublishCreated(runId: string, results: seq<Outcome>)
      requires broker.Valid()
      requires forall e :: e in Created(results) ==> e.runId == runId
      modifies broker, broker.Members(runId)
      ensures broker.Valid()
      ensures forall s :: s in old(broker.Members(runId)) ==>
        s.State() == OfferAll(old(s.State()), broker.capacity, Created(results)).0
      ensures broker.Members(runId) == (set s | s in old(broker.Members(runId))
                                               && OfferAll(old(s.State()), broker.capacity, Created(results)).1)
      ensures forall id :: id != runId ==> broker.Members(id) == old(broker.Members(id))
    {
      ghost var all := broker.Members(runId);
      var i := 0;
      while i < |results|
        invariant i <= |results| && broker.Valid()
        invariant forall s :: s in broker.Members(runId) ==> s in all
        invariant forall s :: s in all ==>
          (s.State(), s in broker.Members(runId)) == OfferAll(old(s.State()), broker.capacity, Created(results[..i]))
        invariant forall id :: id != runId ==> broker.Members(id) == old(broker.Members(id))
      {
        assert results[..i + 1] == results[..i] + [results[i]];
        CreatedSnoc(results[..i], results[i]);
        if results[i].created {
          var e := results[i].envelope;
          CreatedWithin(results, i);
          ghost var members := broker.Members(runId);
          label offering:
          var _ := broker.Publish(e);
          forall s | s in all
            ensures (s.State(), s in broker.Members(runId))
                    == OfferAll(old(s.State()), broker.capacity, Created(results[..i + 1]))
          {
            OfferAllSnoc(old(s.State()), broker.capacity, Created(results[..i]), e);
            if s in members {
              assert s.State() == Offer(old@offering(s.State()), broker.capacity, e);
            } else {
              assert s.State() == old@offering(s.State());
            }
          }
        } else {
          assert Created(results[..i + 1]) == Created(results[..i]);
        }
        i := i + 1;
      }
      assert results[..i] == results;
    }

    method Terminalize(a: TerminalArgs) returns (r: Result<Envelope, StoreError>)
      requires store.Valid() && broker.Valid()
      modifies store, broker, broker.Members(a.runId)
      ensures store.Valid() && broker.Valid()
      ensures store.View() == Apply(old(store.View()), Terminal(a))
      ensures var es := Published(old(store.View()), Terminal(a));
              && (forall s :: s in old(broker.Members(a.runId)) ==>
                    s.State() == OfferAll(old(s.State()), broker.capacity, es).0)
              && broker.Members(a.runId) == (set s | s in old(broker.Members(a.runId))
                                                     && OfferAll(old(s.State()), broker.capacity, es).1)
      ensures forall id :: id != a.runId ==> broker.Members(id) == old(broker.Members(id))
      ensures var o := RunRegistry.Terminalize(old(store.View()), a).1;
              r == if o.Err? then Err(o.error) else Ok(o.value.envelope)
    {
      var outcome := store.Finish(a);
      if outcome.Err? {
        return Err(outcome.error);
      }
      if outcome.value.created {
        var e := outcome.value.envelope;
        OfferOne(e);
        var _ := broker.Publish(e);
      }
      return Ok(outcome.value.envelope);
    }
  }

  lemma OfferOne(e: Envelope)
    ensures forall q: Queue, capacity: nat {:trigger OfferAll(q, capacity, [e])} ::
              OfferAll(q, capacity, [e]) == (Offer(q, capacity, e), Accepts(q, capacity))
  {
    assert [e][..0] == [];
  }

  lemma OfferAllSnoc(q: Queue, capacity: nat, es: seq<Envelope>, e: Envelope)
    ensures OfferAll(q, capacity, es + [e])
            == var (q', kept) := OfferAll(q, capacity, es);
               if !kept then (q', false) else (Offer(q', capacity, e), Accepts(q', capacity))
  {
    assert (es + [e])[..|es|] == es;
  }

  lemma {:induction false} CreatedWithin(results: seq<Outcome>, i: nat)
    requires i < |results| && results[i].created
    ensures results[i].envelope in Created(results)
    decreases |results|
  {
    if i < |results| - 1 {
      CreatedWithin(results[..|results| - 1], i);
    }
  }
}
