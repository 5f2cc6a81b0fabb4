// The objects of harness/ai/controls.py: one attempt, and the controls whose dictionaries request() changes.
module ProviderService {
  import opened Wrappers
  import C = ProviderControls

  class LoginAttempt {
    var status: C.Status
    var cancelled: bool
    var pc: C.Pc
    var saver: C.Saver

    constructor ()
      ensures Value() == C.Attempt(C.Starting, false, C.Created, C.NoSaver)
    {
      status, cancelled, pc, saver := C.Starting, false, C.Created, C.NoSaver;
    }

    function Value(): C.Attempt
      reads this
    {
      C.Attempt(status, cancelled, pc, saver)
    }

    method Cancel()
      modifies this
      ensures Value() == C.Cancel(old(Value()))
    {
      cancelled := true;
      if status in {C.Starting, C.Waiting} {
        status := C.Cancelled;
      }
    }
  }

  lemma JoinAnswer(s: C.System, c: C.Command, i: nat)
    requires s.first <= |s.attempts| && C.FirstLive(s.attempts, s.first) == Some(i)
    requires c.Login? && !s.closed && C.FindReceipt(s.receipts, c.id).None?
    ensures i < |s.attempts|
    ensures var reply := C.LoginReply(i, s.attempts[i].status);
            C.Answer(s, c) == if s.attempts[i].cancelled then (s, Some(Err(())))
                              else (s.(receipts := C.Record(s.receipts, C.Receipt(c, reply))), Some(Ok(reply)))
  {
  }

  lemma StartAnswer(s: C.System, c: C.Command)
    requires s.first <= |s.attempts| && C.FirstLive(s.attempts, s.first).None?
    requires c.Login? && !s.closed && C.FindReceipt(s.receipts, c.id).None?
    ensures var reply := C.LoginReply(|s.attempts|, C.Starting);
            C.Answer(s, c) == (C.StartLogin(s).(receipts := C.Record(s.receipts, C.Receipt(c, reply))), Some(Ok(reply)))
  {
  }

  lemma StartedIs(s: C.System, s': C.System)
    requires s.first <= |s.attempts| <= s.first + C.KEPT_ATTEMPTS
    requires s'.attempts == s.attempts + [C.Attempt(C.Starting, false, C.Created, C.NoSaver)]
    requires s' == s.(attempts := s'.attempts, first := s'.first)
    requires s'.first == if |s'.attempts| - s.first > C.KEPT_ATTEMPTS then s.first + 1 else s.first
    ensures s' == C.StartLogin(s)
  {
  }

  // The values of a sequence of attempts.
  function Values(attempts: seq<LoginAttempt>): (r: seq<C.Attempt>)
    reads attempts
    ensures |r| == |attempts| && forall i :: 0 <= i < |attempts| ==> r[i] == attempts[i].Value()
  {
    if attempts == [] then []
    else
      var n := |attempts| - 1;
      Values(attempts[..n]) + [attempts[n].Value()]
  }

  lemma ValuesSnoc(attempts: seq<LoginAttempt>, attempt: LoginAttempt)
    ensures Values(attempts + [attempt]) == Values(attempts) + [attempt.Value()]
  {
    assert (attempts + [attempt])[..|attempts|] == attempts;
  }

  ghost predicate Distinct(attempts: seq<LoginAttempt>) {
    forall i, j :: 0 <= i < j < |attempts| ==> attempts[i] != attempts[j]
  }

  lemma DistinctSnoc(attempts: seq<LoginAttempt>, attempt: LoginAttempt)
    requires Distinct(attempts) && attempt !in attempts
    ensures Distinct(attempts + [attempt])
  {
  }

  ghost predicate Unfinished(a: C.Attempt) { a.status == C.Starting || a.status == C.Waiting }

  // `table` is the dictionary in insertion order; login ids number the attempts, `dropped` of which are evicted. The
  // save threads change `credential` and `written`, and abandoned logouts leave `strays` behind, between requests.
  class LocalProviderControls {
    ghost var evicted: seq<C.Attempt>
    var table: seq<LoginAttempt>
    var dropped: nat
    var receipts: seq<C.Receipt>
    var closed: bool
    var credential: Option<nat>
    ghost var written: seq<nat>
    ghost var strays: nat

    constructor ()
      ensures Valid() && State() == C.INITIAL
    {
      evicted, table, dropped, receipts, closed, credential, written, strays := [], [], 0, [], false, None, [], 0;
    }

    ghost predicate Valid()
      reads this
    {
      dropped == |evicted| && |table| <= C.KEPT_ATTEMPTS && Distinct(table)
    }

    // The system between two requests.
    ghost function State(): C.System
      reads this, table
    {
      C.System(evicted + Values(table), |evicted|, credential, written, receipts, C.Free, C.Ready, strays, closed)
    }

    method Remember(c: C.Command, reply: C.Reply)
      modifies this`receipts
      ensures receipts == C.Record(old(receipts), C.Receipt(c, reply))
    {
      receipts := receipts + [C.Receipt(c, reply)];
      if |receipts| > C.KEPT_RECEIPTS {
        receipts := receipts[1..];
      }
    }

    // The first attempt of the table whose task is not done.
    method FindLive() returns (live: Option<nat>)
      ensures C.FirstLive(evicted + Values(table), |evicted|)
              == if live.Some? then Some(|evicted| + live.value) else None
      ensures live.Some? ==> live.value < |table|
    {
      ghost var all := evicted + Values(table);
      var i := 0;
      while i < |table|
        invariant i <= |table| && C.FirstLive(all, |evicted|) == C.FirstLive(all, |evicted| + i)
      {
        assert table[i].Value() == all[|evicted| + i];
        if table[i].pc != C.Done {
          return Some(i);
        }
        i := i + 1;
      }
      live := None;
    }

    // The oldest attempt leaves the table.
    method Evict()
      requires dropped == |evicted| && table != []
      modifies this`table, this`evicted, this`dropped
      ensures table == old(table)[1..] && dropped == |evicted| == |old(evicted)| + 1
      ensures evicted + Values(table) == old(evicted + Values(table))
    {
      evicted := evicted + [table[0].Value()];
      table := table[1..];
      dropped := dropped + 1;
    }

    // The oldest attempts leave the table while there are more than 32.
    method Trim()
      requires dropped == |evicted| && 0 < |table| <= C.KEPT_ATTEMPTS + 1 && Distinct(table)
      modifies this`table, this`evicted, this`dropped
      ensures evicted + Values(table) == old(evicted + Values(table))
      ensures Valid() && table != [] && table[|table| - 1] == old(table)[|old(table)| - 1]
      ensures |table| == if |old(table)| > C.KEPT_ATTEMPTS then C.KEPT_ATTEMPTS else |old(table)|
    {
      while |table| > C.KEPT_ATTEMPTS
        invariant dropped == |evicted| && evicted + Values(table) == old(evicted + Values(table))
        invariant |table| <= |old(table)| && table == old(table)[|old(table)| - |table|..]
        invariant |table| == |old(table)| || |table| == C.KEPT_ATTEMPTS
      {
        Evict();
      }
    }

    method Enter()
      requires Valid()
      modifies this`table
      ensures Distinct(table) && |table| == |old(table)| + 1
      ensures evicted + Values(table)
              == old(evicted + Values(table)) + [C.Attempt(C.Starting, false, C.Created, C.NoSaver)]
      ensures table[|table| - 1].Value() == C.Attempt(C.Starting, false, C.Created, C.NoSaver)
    {
      ghost var values := Values(table);
      var attempt := new LoginAttempt();
      assert Values(table) == values;
      DistinctSnoc(table, attempt);
      ValuesSnoc(table, attempt);
      table := table + [attempt];
      assert evicted + Values(table) == (evicted + values) + [attempt.Value()];
    }

    // A new attempt enters the table, which is trimmed.
    method Start()
      requires Valid()
      modifies this`table, this`evicted, this`dropped
      ensures Valid() && State() == C.StartLogin(old(State())) && table != []
      ensures table[|table| - 1].Value() == C.Attempt(C.Starting, false, C.Created, C.NoSaver)
    {
      ghost var before := State();
      Enter();
      Trim();
      assert State() == before.(attempts := State().attempts, first := |evicted|);
      StartedIs(before, State());
    }

    method Login(c: C.Command) returns (out: Result<C.Reply, ()>)
      requires Valid() && c.Login? && !closed && C.FindReceipt(receipts, c.id).None?
      modifies this
      ensures Valid() && (State(), Some(out)) == C.Answer(old(State()), c)
    {
      var live := FindLive();
      if live.Some? {
        out := Join(c, live.value);
      } else {
        out := StartNew(c);
      }
    }

    // The attempt that is still running answers for the login, unless it is stopping.
    method Join(c: C.Command, k: nat) returns (out: Result<C.Reply, ()>)
      requires Valid() && c.Login? && !closed && C.FindReceipt(receipts, c.id).None?
      requires k < |table| && C.FirstLive(evicted + Values(table), |evicted|) == Some(|evicted| + k)
      modifies this`receipts
      ensures Valid() && (State(), Some(out)) == C.Answer(old(State()), c)
    {
      JoinAnswer(State(), c, |evicted| + k);
      assert table[k].Value() == State().attempts[|evicted| + k];
      if table[k].cancelled {
        return Err(());
      }
      var reply := C.LoginReply(dropped + k, table[k].status);
      Remember(c, reply);
      out := Ok(reply);
    }

    method StartNew(c: C.Command) returns (out: Result<C.Reply, ()>)
      requires Valid() && c.Login? && !closed && C.FindReceipt(receipts, c.id).None?
      requires C.FirstLive(evicted + Values(table), |evicted|).None?
      modifies this
      ensures Valid() && (State(), Some(out)) == C.Answer(old(State()), c)
    {
      StartAnswer(State(), c);
      Start();
      ghost var started := State();
      var reply := C.LoginReply(dropped + |table| - 1, table[|table| - 1].status);
      assert reply.attempt == |old(State()).attempts| && reply.status == C.Starting;
      Remember(c, reply);
      assert State() == started.(receipts := receipts);
      out := Ok(reply);
    }

    method CancelLogin(c: C.Command) returns (out: Result<C.Reply, ()>)
      requires Valid() && c.CancelLogin? && !closed && C.FindReceipt(receipts, c.id).None?
      modifies this`receipts, table
      ensures Valid() && (State(), Some(out)) == C.Answer(old(State()), c)
    {
      if c.target < dropped || c.target >= dropped + |table| {
        return Err(());
      }
      var k := c.target - dropped;
      ghost var all := evicted + Values(table);
      assert table[k].Value() == all[c.target];
      table[k].Cancel();
      assert evicted + Values(table) == all[c.target := C.Cancel(all[c.target])];
      var reply := C.LoginReply(c.target, table[k].status);
      Remember(c, reply);
      out := Ok(reply);
    }

    // Every attempt is cancelled, then the credential is removed; it is up to the caller that no save holds its locks.
    method Logout(c: C.Command) returns (out: Result<C.Reply, ()>)
      requires Valid() && c.Logout? && !closed && C.FindReceipt(receipts, c.id).None?
      modifies this`receipts, this`credential, table
      ensures Valid() && State() == C.LoggedOut(old(State()), c)
      ensures out == Ok(C.LogoutReply(old(credential).Some?))
    {
      ghost var before := State();
      CancelAll();
      assert State() == before.(attempts := C.Swept(before.attempts, before.first, |before.attempts|));
      var removed := credential.Some?;
      credential := None;
      var reply := C.LogoutReply(removed);
      Remember(c, reply);
      out := Ok(reply);
    }

    method CancelAll()
      requires Valid()
      modifies table
      ensures evicted + Values(table)
              == C.Swept(old(evicted + Values(table)), |evicted|, |evicted| + |table|)
    {
      ghost var first := Values(table);
      var i := 0;
      while i < |table|
        invariant i <= |table|
        invariant forall j :: 0 <= j < i ==> table[j].Value() == C.Cancel(first[j])
        invariant forall j :: i <= j < |table| ==> table[j].Value() == first[j]
      {
        table[i].Cancel();
        i := i + 1;
      }
    }

    // request() for the operations that change something.
    method Request(c: C.Command) returns (out: Result<C.Reply, ()>)
      requires Valid() && (c.Logout? ==> C.StoreFree(State()))
      modifies this, table
      ensures Valid()
      ensures if c.Logout? && !old(closed) && C.FindReceipt(old(receipts), c.id).None?
              then State() == C.LoggedOut(old(State()), c) && out == Ok(C.LogoutReply(old(credential).Some?))
              else (State(), Some(out)) == C.Answer(old(State()), c)
    {
      if closed {
        return Err(());
      }
      var receipt := C.FindReceipt(receipts, c.id);
      if receipt.Some? {
        return if receipt.value.command == c then Ok(receipt.value.reply) else Err(());
      }
      match c
      case Login(_) => out := Login(c);
      case CancelLogin(_, _) => out := CancelLogin(c);
      case Logout(_) => out := Logout(c);
    }

    // request() for status: the attempt asked for, or the first that is starting or waiting, if any.
    method ShownLogin(target: Option<nat>) returns (out: Result<Option<nat>, ()>)
      requires Valid()
      ensures out.Err? <==> closed || (target.Some? && !(dropped <= target.value < dropped + |table|))
      ensures out.Ok? && target.Some? ==> out.value == target
      ensures out.Ok? && target.None? && out.value.Some? ==>
        && dropped <= out.value.value < dropped + |table|
        && Unfinished(State().attempts[out.value.value])
        && forall i :: dropped <= i < out.value.value ==> !Unfinished(State().attempts[i])
      ensures out.Ok? && target.None? && out.value.None? ==>
        forall i :: dropped <= i < dropped + |table| ==> !Unfinished(State().attempts[i])
    {
      if closed {
        return Err(());
      }
      if target.Some? {
        return if dropped <= target.value < dropped + |table| then Ok(target) else Err(());
      }
      var i := 0;
      while i < |table|
        invariant i <= |table|
        invariant forall j :: 0 <= j < i ==> table[j].status !in {C.Starting, C.Waiting}
      {
        if table[i].status in {C.Starting, C.Waiting} {
          return Ok(Some(dropped + i));
        }
        i := i + 1;
      }
      out := Ok(None);
    }
  }
}
