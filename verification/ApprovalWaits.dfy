// harness/approvals/waiting.py: every wait of one waiter, raced against deciders, expiry, timeouts and cancellation.
module ApprovalWaits {
  import opened Wrappers
  import A = Approvals

  datatype Outcome = Returned(row: A.Row) | Failed | Rejected

  // Polling the row; timed out; expired by the timeout; leaving with an outcome, first registered, then owing the
  // shielded expiry; cancelled while owing it; done.
  datatype Pc = Polling | TimedOut | Lapsed | Leaving(outcome: Outcome) | Owing(outcome: Outcome) | Orphaned
    | Done(outcome: Outcome)

  // `timed` and `cancelled` say what has happened to the wait.
  datatype Wait = Wait(id: string, pc: Pc, timed: bool, cancelled: bool)

  datatype System = System(rows: seq<A.Row>, waits: map<nat, Wait>, pending: set<string>, task: string)

  const CAPACITY := 32

  datatype Step =
    | Store(op: A.Op)
    | Begin(w: nat, id: string, taskId: string)
    | Poll(w: nat) | TimeUp(w: nat) | ExpireTimedOut(w: nat, now: int) | ReadTimedOut(w: nat) | Cancel(w: nat)
    | Unregister(w: nat) | FinalExpire(w: nat, now: int) | CancelFinal(w: nat)

  function RowOf(s: System, id: string): Option<A.Row> {
    var k := A.FindId(s.rows, id);
    if k.Some? then Some(s.rows[k.value]) else None
  }

  predicate Registered(pc: Pc) { pc.Polling? || pc.TimedOut? || pc.Lapsed? || pc.Leaving? }

  predicate At(s: System, w: nat, p: Pc -> bool) { w in s.waits && p(s.waits[w].pc) }

  predicate Enabled(s: System, step: Step) {
    match step
    case Store(op) => A.FreshIds(s.rows, op)
    case Begin(w, _, _) => w !in s.waits
    case Poll(w) => At(s, w, (pc: Pc) => pc.Polling?)
    case TimeUp(w) => At(s, w, (pc: Pc) => pc.Polling?)
    case ExpireTimedOut(w, _) => At(s, w, (pc: Pc) => pc.TimedOut?)
    case ReadTimedOut(w) => At(s, w, (pc: Pc) => pc.Lapsed?)
    case Cancel(w) => At(s, w, (pc: Pc) => pc.Polling? || pc.TimedOut? || pc.Lapsed?)
    case Unregister(w) => At(s, w, (pc: Pc) => pc.Leaving?)
    case FinalExpire(w, _) => At(s, w, (pc: Pc) => pc.Owing? || pc.Orphaned?)
    case CancelFinal(w) => At(s, w, (pc: Pc) => pc.Owing?)
  }

  function Goto(s: System, w: nat, x: Wait): System { s.(waits := s.waits[w := x]) }

  // wait() up to its registration.
  function Start(s: System, w: nat, id: string, taskId: string): System {
    var row := RowOf(s, id);
    if taskId != s.task || row.None? || row.value.content.taskId != taskId then
      Goto(s, w, Wait(id, Done(Rejected), false, false))
    else if row.value.status != A.Pending then Goto(s, w, Wait(id, Done(Returned(row.value)), false, false))
    else if id in s.pending || |s.pending| >= CAPACITY then Goto(s, w, Wait(id, Done(Rejected), false, false))
    else Goto(s, w, Wait(id, Polling, false, false)).(pending := s.pending + {id})
  }

  // One poll: leave with a decided row, or keep waiting.
  function Polled(s: System, w: nat, x: Wait, row: Option<A.Row>): System {
    if row.None? then Goto(s, w, x.(pc := Leaving(Failed)))
    else if row.value.status != A.Pending then Goto(s, w, x.(pc := Leaving(Returned(row.value))))
    else s
  }

  // A racing decision may be durable, but the timed-out wait reports expired.
  function LateOutcome(row: Option<A.Row>): Outcome {
    if row.None? then Failed else Returned(row.value.(status := A.Expired))
  }

  function FinalOutcome(pc: Pc): Outcome { if pc.Owing? then pc.outcome else Failed }

  function Next(s: System, step: Step): System
    requires Enabled(s, step)
  {
    match step
    case Store(op) => s.(rows := A.Perform(s.rows, op))
    case Begin(w, id, taskId) => Start(s, w, id, taskId)
    case Poll(w) => Polled(s, w, s.waits[w], RowOf(s, s.waits[w].id))
    case TimeUp(w) => Goto(s, w, s.waits[w].(pc := TimedOut, timed := true))
    case ExpireTimedOut(w, now) =>
      Goto(s, w, s.waits[w].(pc := Lapsed)).(rows := A.ExpireWait(s.rows, s.waits[w].id, s.task, now))
    case ReadTimedOut(w) => Goto(s, w, s.waits[w].(pc := Leaving(LateOutcome(RowOf(s, s.waits[w].id)))))
    case Cancel(w) => Goto(s, w, s.waits[w].(pc := Leaving(Failed), cancelled := true))
    case Unregister(w) =>
      Goto(s, w, s.waits[w].(pc := Owing(s.waits[w].pc.outcome))).(pending := s.pending - {s.waits[w].id})
    case FinalExpire(w, now) =>
      Goto(s, w, s.waits[w].(pc := Done(FinalOutcome(s.waits[w].pc)))).(
        rows := A.ExpireWait(s.rows, s.waits[w].id, s.task, now))
    case CancelFinal(w) => Goto(s, w, s.waits[w].(pc := Orphaned, cancelled := true))
  }

  predicate Runs(s: System, steps: seq<Step>)
    decreases steps
  {
    steps == [] || (Enabled(s, steps[0]) && Runs(Next(s, steps[0]), steps[1..]))
  }

  function After(s: System, steps: seq<Step>): System
    requires Runs(s, steps)
    decreases steps
  {
    if steps == [] then s else After(Next(s, steps[0]), steps[1..])
  }

  // ---------------------------------------------------------------- the invariant

  // A wait fails only when it was cancelled. A returned row is decided, and the stored row since has at most lapsed;
  // after a timeout it reads expired.
  predicate OutcomeGood(rows: seq<A.Row>, x: Wait, o: Outcome) {
    && (o.Failed? ==> x.cancelled)
    && (o.Returned? ==>
          && A.FindId(rows, x.id).Some?
          && var row := rows[A.FindId(rows, x.id).value];
             && o.row.id == x.id && o.row.content == row.content && o.row.status != A.Pending
             && (if x.timed then o.row.status == A.Expired else A.Evolves(o.row, row) && A.RowGood(o.row)))
  }

  predicate Known(rows: seq<A.Row>, task: string, id: string) {
    A.FindId(rows, id).Some? && rows[A.FindId(rows, id).value].content.taskId == task
  }

  predicate Settled(rows: seq<A.Row>, task: string, id: string) {
    Known(rows, task, id) && rows[A.FindId(rows, id).value].status != A.Pending
  }

  predicate WaitGood(rows: seq<A.Row>, task: string, x: Wait) {
    match x.pc
    case Polling => Known(rows, task, x.id) && !x.timed
    case TimedOut => Known(rows, task, x.id) && x.timed
    case Lapsed => Settled(rows, task, x.id) && x.timed
    case Leaving(o) => Known(rows, task, x.id) && OutcomeGood(rows, x, o)
    case Owing(o) => Known(rows, task, x.id) && OutcomeGood(rows, x, o)
    case Orphaned => Known(rows, task, x.id) && x.cancelled
    case Done(o) => o.Rejected? || (Settled(rows, task, x.id) && OutcomeGood(rows, x, o))
  }

  ghost predicate Inv(s: System) {
    && A.TableGood(s.rows) && |s.pending| <= CAPACITY
    && (forall w :: w in s.waits ==> WaitGood(s.rows, s.task, s.waits[w]))
    && (forall w :: w in s.waits && Registered(s.waits[w].pc) ==> s.waits[w].id in s.pending)
    && (forall v, w :: v in s.waits && w in s.waits && v != w && Registered(s.waits[v].pc) && Registered(s.waits[w].pc)
          ==> s.waits[v].id != s.waits[w].id)
  }

  lemma FindIs(rows: seq<A.Row>, id: string, k: nat)
    requires A.TableGood(rows) && k < |rows| && rows[k].id == id
    ensures A.FindId(rows, id) == Some(k)
  {
    assert rows[k] in rows;
  }

  // Whatever the store does, no wait's facts are lost.
  lemma WaitKept(rows: seq<A.Row>, rows': seq<A.Row>, task: string, x: Wait)
    requires A.TableGood(rows) && A.TableGood(rows') && A.TableEvolves(rows, rows') && WaitGood(rows, task, x)
    ensures WaitGood(rows', task, x)
    ensures Known(rows, task, x.id) ==> Known(rows', task, x.id)
  {
    var k := A.FindId(rows, x.id);
    if k.Some? {
      assert A.Evolves(rows[k.value], rows'[k.value]) && A.RowGood(rows[k.value]);
      FindIs(rows', x.id, k.value);
    }
  }

  lemma RowsKeep(s: System, op: A.Op)
    requires Inv(s) && A.FreshIds(s.rows, op)
    ensures Inv(s.(rows := A.Perform(s.rows, op)))
  {
    A.OpKeeps(s.rows, op);
    forall w | w in s.waits ensures WaitGood(A.Perform(s.rows, op), s.task, s.waits[w]) {
      WaitKept(s.rows, A.Perform(s.rows, op), s.task, s.waits[w]);
    }
  }

  lemma ExpireSettles(rows: seq<A.Row>, task: string, id: string, now: int)
    requires A.TableGood(rows) && Known(rows, task, id)
    ensures Settled(A.ExpireWait(rows, id, task, now), task, id)
  {
    var k := A.FindId(rows, id).value;
    var rows' := A.ExpireWait(rows, id, task, now);
    A.OpKeeps(rows, A.Closing(id, task, now));
    assert rows' == A.Perform(rows, A.Closing(id, task, now));
    FindIs(rows', id, k);
  }

  // One wait moves; the others keep what they have.
  lemma GotoKeeps(s: System, w: nat, x: Wait)
    requires Inv(s) && WaitGood(s.rows, s.task, x)
    requires Registered(x.pc) ==> w in s.waits && s.waits[w].id == x.id && Registered(s.waits[w].pc)
    ensures Inv(Goto(s, w, x))
  {
  }

  lemma RegisterKeeps(s: System, w: nat, id: string)
    requires Inv(s) && w !in s.waits && Known(s.rows, s.task, id) && id !in s.pending && |s.pending| < CAPACITY
    ensures Inv(Goto(s, w, Wait(id, Polling, false, false)).(pending := s.pending + {id}))
  {
    assert forall v :: v in s.waits && Registered(s.waits[v].pc) ==> s.waits[v].id in s.pending;
  }

  lemma BeginKeeps(s: System, w: nat, id: string, taskId: string)
    requires Inv(s) && w !in s.waits
    ensures Inv(Start(s, w, id, taskId))
  {
    var row := RowOf(s, id);
    if taskId != s.task || row.None? || row.value.content.taskId != taskId {
      GotoKeeps(s, w, Wait(id, Done(Rejected), false, false));
    } else if row.value.status != A.Pending {
      GotoKeeps(s, w, Wait(id, Done(Returned(row.value)), false, false));
    } else if id in s.pending || |s.pending| >= CAPACITY {
      GotoKeeps(s, w, Wait(id, Done(Rejected), false, false));
    } else {
      RegisterKeeps(s, w, id);
    }
  }

  lemma UnregisterKeeps(s: System, w: nat)
    requires Inv(s) && Enabled(s, Unregister(w))
    ensures Inv(Next(s, Unregister(w)))
  {
    var x := s.waits[w];
    GotoKeeps(s, w, x.(pc := Owing(x.pc.outcome)));
  }

  lemma PollKeeps(s: System, w: nat)
    requires Inv(s) && Enabled(s, Poll(w))
    ensures Inv(Next(s, Poll(w)))
  {
    var x := s.waits[w];
    var row := RowOf(s, x.id);
    if row.value.status != A.Pending {
      assert A.RowGood(row.value);
      GotoKeeps(s, w, x.(pc := Leaving(Returned(row.value))));
    }
  }

  // Expiry by the wait itself, then its next state.
  lemma ExpireKeeps(s: System, w: nat, x: Wait, now: int)
    requires Inv(s) && w in s.waits && x.id == s.waits[w].id && Known(s.rows, s.task, x.id)
    requires Registered(x.pc) ==> Registered(s.waits[w].pc)
    requires forall rows ::
      A.TableGood(rows) && A.TableEvolves(s.rows, rows) && Settled(rows, s.task, x.id) ==> WaitGood(rows, s.task, x)
    ensures Inv(Goto(s, w, x).(rows := A.ExpireWait(s.rows, x.id, s.task, now)))
  {
    var op := A.Closing(x.id, s.task, now);
    var s1 := s.(rows := A.Perform(s.rows, op));
    A.OpKeeps(s.rows, op);
    RowsKeep(s, op);
    ExpireSettles(s.rows, s.task, x.id, now);
    GotoKeeps(s1, w, x);
  }

  lemma FinalExpireKeeps(s: System, w: nat, now: int)
    requires Inv(s) && Enabled(s, FinalExpire(w, now))
    ensures Inv(Next(s, FinalExpire(w, now)))
  {
    var x := s.waits[w].(pc := Done(FinalOutcome(s.waits[w].pc)));
    forall rows | A.TableGood(rows) && A.TableEvolves(s.rows, rows) && Settled(rows, s.task, x.id)
      ensures WaitGood(rows, s.task, x)
    {
      WaitKept(s.rows, rows, s.task, s.waits[w]);
    }
    ExpireKeeps(s, w, x, now);
  }

  lemma StepKeeps(s: System, step: Step)
    requires Inv(s) && Enabled(s, step)
    ensures Inv(Next(s, step))
  {
    match step {
      case Store(op) => RowsKeep(s, op);
      case Begin(w, id, taskId) => BeginKeeps(s, w, id, taskId);
      case Poll(w) => PollKeeps(s, w);
      case TimeUp(w) => GotoKeeps(s, w, s.waits[w].(pc := TimedOut, timed := true));
      case ExpireTimedOut(w, now) => ExpireKeeps(s, w, s.waits[w].(pc := Lapsed), now);
      case ReadTimedOut(w) => GotoKeeps(s, w, s.waits[w].(pc := Leaving(LateOutcome(RowOf(s, s.waits[w].id)))));
      case Cancel(w) => GotoKeeps(s, w, s.waits[w].(pc := Leaving(Failed), cancelled := true));
      case Unregister(w) => UnregisterKeeps(s, w);
      case FinalExpire(w, now) => FinalExpireKeeps(s, w, now);
      case CancelFinal(w) => GotoKeeps(s, w, s.waits[w].(pc := Orphaned, cancelled := true));
    }
  }

  // Whatever counts against the capacity is waited for.
  ghost predicate Waited(s: System) {
    forall id :: id in s.pending ==> exists w :: w in s.waits && Registered(s.waits[w].pc) && s.waits[w].id == id
  }

  lemma GotoWaited(s: System, w: nat, x: Wait, s': System)
    requires Waited(s) && s'.pending == s.pending && s'.waits == s.waits[w := x]
    requires w in s.waits && Registered(s.waits[w].pc) ==> Registered(x.pc) && x.id == s.waits[w].id
    ensures Waited(s')
  {
    forall id | id in s'.pending
      ensures exists v :: v in s'.waits && Registered(s'.waits[v].pc) && s'.waits[v].id == id
    {
      var v :| v in s.waits && Registered(s.waits[v].pc) && s.waits[v].id == id;
      assert v in s'.waits;
    }
  }

  lemma RegisteredWaited(s: System, w: nat, x: Wait, s': System)
    requires Waited(s) && w !in s.waits && s'.waits == s.waits[w := x] && Registered(x.pc)
    requires s'.pending == s.pending + {x.id}
    ensures Waited(s')
  {
    GotoWaited(s, w, x, s'.(pending := s.pending));
    assert w in s'.waits;
  }

  lemma BeginWaited(s: System, w: nat, id: string, taskId: string, s': System)
    requires Waited(s) && w !in s.waits && s' == Start(s, w, id, taskId)
    ensures Waited(s')
  {
    if s'.pending == s.pending {
      GotoWaited(s, w, s'.waits[w], s');
    } else {
      RegisteredWaited(s, w, Wait(id, Polling, false, false), s');
    }
  }

  lemma UnregisterWaited(s: System, w: nat, s': System)
    requires Waited(s) && w in s.waits && s'.pending == s.pending - {s.waits[w].id}
    requires forall v :: v in s.waits && v != w ==> v in s'.waits && s'.waits[v] == s.waits[v]
    ensures Waited(s')
  {
    forall id | id in s'.pending
      ensures exists v :: v in s'.waits && Registered(s'.waits[v].pc) && s'.waits[v].id == id
    {
      var v :| v in s.waits && Registered(s.waits[v].pc) && s.waits[v].id == id;
      assert v in s'.waits;
    }
  }

  lemma StepWaited(s: System, step: Step)
    requires Waited(s) && Enabled(s, step)
    ensures Waited(Next(s, step))
  {
    var s' := Next(s, step);
    match step {
      case Store(_) =>
      case Begin(w, id, taskId) => BeginWaited(s, w, id, taskId, s');
      case Poll(w) => GotoWaited(s, w, s'.waits[w], s');
      case Unregister(w) => UnregisterWaited(s, w, s');
      case TimeUp(w) => GotoWaited(s, w, s.waits[w].(pc := TimedOut, timed := true), s');
      case ExpireTimedOut(w, _) => GotoWaited(s, w, s.waits[w].(pc := Lapsed), s');
      case ReadTimedOut(w) =>
        GotoWaited(s, w, s.waits[w].(pc := Leaving(LateOutcome(RowOf(s, s.waits[w].id)))), s');
      case Cancel(w) => GotoWaited(s, w, s.waits[w].(pc := Leaving(Failed), cancelled := true), s');
      case FinalExpire(w, _) => GotoWaited(s, w, s.waits[w].(pc := Done(FinalOutcome(s.waits[w].pc))), s');
      case CancelFinal(w) => GotoWaited(s, w, s.waits[w].(pc := Orphaned, cancelled := true), s');
    }
  }

  lemma {:induction false} EveryRaceKeeps(s: System, steps: seq<Step>)
    requires Inv(s) && Waited(s) && Runs(s, steps)
    ensures Inv(After(s, steps)) && Waited(After(s, steps))
    decreases steps
  {
    if steps != [] {
      StepKeeps(s, steps[0]);
      StepWaited(s, steps[0]);
      EveryRaceKeeps(Next(s, steps[0]), steps[1..]);
    }
  }

  ghost predicate Holds(s: System, row: A.Row, id: string, taskId: string) {
    row in s.rows && row.id == id && row.content.taskId == taskId
  }

  // What a wait is told when it begins: the row of its task, if that is decided already; a refusal when there is no
  // such row, or when the row is waited for or 32 others are; and else it is registered and polls.
  lemma BeginAnswers(s: System, w: nat, id: string, taskId: string, row: A.Row)
    requires A.TableGood(s.rows) && w !in s.waits
    ensures var s' := Next(s, Begin(w, id, taskId));
            && w in s'.waits && s'.rows == s.rows
            && (taskId != s.task || (forall r :: r in s.rows ==> !Holds(s, r, id, taskId)) ==>
                  s'.waits[w].pc == Done(Rejected) && s'.pending == s.pending)
            && (taskId == s.task && Holds(s, row, id, taskId) && row.status != A.Pending ==>
                  s'.waits[w].pc == Done(Returned(row)) && s'.pending == s.pending)
            && (taskId == s.task && Holds(s, row, id, taskId) && row.status == A.Pending ==>
                  if id in s.pending || |s.pending| >= 32
                  then s'.waits[w].pc == Done(Rejected) && s'.pending == s.pending
                  else s'.waits[w].pc == Polling && s'.pending == s.pending + {id})
  {
    var k := A.FindId(s.rows, id);
    if Holds(s, row, id, taskId) {
      var i :| 0 <= i < |s.rows| && s.rows[i] == row;
      FindIs(s.rows, id, i);
    }
    if k.Some? {
      assert s.rows[k.value] in s.rows;
    }
  }

  // A poll ends the wait exactly when its row is decided, with that row.
  lemma PollAnswers(s: System, w: nat, row: A.Row)
    requires Inv(s) && Enabled(s, Poll(w)) && Holds(s, row, s.waits[w].id, s.task)
    ensures var s' := Next(s, Poll(w));
            if row.status == A.Pending then s' == s
            else s'.waits[w].pc == Leaving(Returned(row)) && s'.rows == s.rows && s'.pending == s.pending
  {
    var i :| 0 <= i < |s.rows| && s.rows[i] == row;
    FindIs(s.rows, row.id, i);
  }

  // Any race of decisions, deadlines, timeouts and cancellations: a registered wait fails only when it was cancelled,
  // reads expired after its timeout, and else returns the decision, which the store still holds but for an approval
  // that lapsed since; once it is done, its row is not pending. A wait cancelled while it still owes its shielded
  // expiry has ended for its caller, but is orphaned, not done: its row may be pending until then.
  lemma WaitsAreSound(rows: seq<A.Row>, task: string, steps: seq<Step>, w: nat)
    requires A.TableGood(rows) && Runs(System(rows, map[], {}, task), steps)
    requires var s := After(System(rows, map[], {}, task), steps); w in s.waits && s.waits[w].pc.Done?
    ensures var s := After(System(rows, map[], {}, task), steps);
            var x := s.waits[w];
            match x.pc.outcome
            case Rejected => true
            case Failed => x.cancelled && RowOf(s, x.id).Some? && RowOf(s, x.id).value.status != A.Pending
            case Returned(row) => RowOf(s, x.id).Some? && Tells(x, row, RowOf(s, x.id).value)
  {
    EveryRaceKeeps(System(rows, map[], {}, task), steps);
  }

  // The row that a wait returned, and what the store holds under its id by now.
  predicate Tells(x: Wait, row: A.Row, stored: A.Row) {
    && row.id == stored.id == x.id && row.content == stored.content && stored.status != A.Pending
    && if x.timed then row.status == A.Expired
       else
         && row.status != A.Pending && row.decidedAt == stored.decidedAt && row.decidedBy == stored.decidedBy
         && (stored.status == row.status || (row.status == A.Approved && stored.status == A.Expired))
  }
}
