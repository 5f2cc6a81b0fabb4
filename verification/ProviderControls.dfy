// harness/ai/controls.py: device-code login, cancel and logout as a step relation. The event loop is atomic between
// awaits; save and delete run on worker threads; `commit_lock` and the store's file lock are held across steps.
module ProviderControls {
  import opened Wrappers

  datatype Status = Starting | Waiting | Authenticated | Cancelled | Failed

  // Where the coroutine of an attempt stands: each of these but Created and Done is an await.
  datatype Pc = Created | Factory | Authorizing | Completing | Saving | Closing | Done

  // The save thread: queued, holding both locks, credential replaced on disk, ended (with or without an exception).
  datatype Saver = NoSaver | Queued | Locked | Wrote | Ended(ok: bool)

  datatype Attempt = Attempt(status: Status, cancelled: bool, pc: Pc, saver: Saver)

  datatype Command = Login(id: string) | CancelLogin(id: string, target: nat) | Logout(id: string)

  datatype Reply = LoginReply(attempt: nat, status: Status) | LogoutReply(removed: bool)

  datatype Receipt = Receipt(command: Command, reply: Reply)

  // The mutation lock, which only a logout holds across an await.
  datatype Mutex = Free | Sweeping(command: Command) | Removing(command: Command)
    | Removed(command: Command, removed: bool)

  // A sweep cancels attempts one by one; the event loop does nothing else meanwhile.
  datatype Loop = Ready | Sweep(next: nat)

  // Attempts are numbered by start; `_attempts` still holds those from `first` on.
  datatype System = System(
    attempts: seq<Attempt>, first: nat, credential: Option<nat>, written: seq<nat>, receipts: seq<Receipt>,
    mutex: Mutex, loop: Loop, strays: nat, closed: bool)

  const KEPT_ATTEMPTS := 32
  const KEPT_RECEIPTS := 128

  const INITIAL := System([], 0, None, [], [], Free, Ready, 0, false)

  predicate Live(a: Attempt) { a.pc != Done }

  predicate HoldsLocks(a: Attempt) { a.saver.Locked? || a.saver.Wrote? }

  predicate StoreFree(s: System) { forall a :: a in s.attempts ==> !HoldsLocks(a) }

  predicate Terminal(status: Status) { status in {Authenticated, Cancelled, Failed} }

  function Cancel(a: Attempt): Attempt {
    a.(cancelled := true, status := if a.status in {Starting, Waiting} then Cancelled else a.status)
  }

  // An exception in the coroutine: the failure is shown unless the attempt was cancelled.
  function Fail(a: Attempt): Attempt {
    if a.cancelled then a else a.(status := Failed)
  }

  // ---------------------------------------------------------------- requests

  function FindReceipt(receipts: seq<Receipt>, id: string): (r: Option<Receipt>)
    ensures r.Some? ==> r.value in receipts && r.value.command.id == id
    ensures r.None? ==> forall x :: x in receipts ==> x.command.id != id
  {
    if receipts == [] then None
    else if receipts[0].command.id == id then Some(receipts[0])
    else FindReceipt(receipts[1..], id)
  }

  function Record(receipts: seq<Receipt>, r: Receipt): seq<Receipt> {
    var all := receipts + [r];
    if |all| > KEPT_RECEIPTS then all[1..] else all
  }

  function FirstLive(attempts: seq<Attempt>, from: nat): (r: Option<nat>)
    requires from <= |attempts|
    ensures r.Some? ==> from <= r.value < |attempts| && Live(attempts[r.value])
    ensures r.None? ==> forall i :: from <= i < |attempts| ==> !Live(attempts[i])
    decreases |attempts| - from
  {
    if from == |attempts| then None
    else if Live(attempts[from]) then Some(from)
    else FirstLive(attempts, from + 1)
  }

  predicate InTable(s: System, i: nat) { s.first <= i < |s.attempts| }

  function StartLogin(s: System): System {
    var n := |s.attempts|;
    s.(attempts := s.attempts + [Attempt(Starting, false, Created, NoSaver)],
       first := if n + 1 - s.first > KEPT_ATTEMPTS then n + 1 - KEPT_ATTEMPTS else s.first)
  }

  function WithAttempt(s: System, i: nat, a: Attempt): System
    requires i < |s.attempts|
  {
    s.(attempts := s.attempts[i := a])
  }

  // The event-loop part of request() once it holds the mutation lock. `None` is a logout that must now sweep.
  function Answer(s: System, c: Command): (System, Option<Result<Reply, ()>>)
    requires s.first <= |s.attempts|
  {
    var receipt := FindReceipt(s.receipts, c.id);
    if s.closed then (s, Some(Err(())))
    else if receipt.Some? then (s, Some(if receipt.value.command == c then Ok(receipt.value.reply) else Err(())))
    else
      match c
      case Login(_) =>
        var live := FirstLive(s.attempts, s.first);
        if live.Some? && s.attempts[live.value].cancelled then (s, Some(Err(())))
        else
          var i := if live.Some? then live.value else |s.attempts|;
          var s1 := if live.Some? then s else StartLogin(s);
          var reply := LoginReply(i, s1.attempts[i].status);
          (s1.(receipts := Record(s.receipts, Receipt(c, reply))), Some(Ok(reply)))
      case CancelLogin(_, i) =>
        if !InTable(s, i) then (s, Some(Err(())))
        else
          var a := Cancel(s.attempts[i]);
          var reply := LoginReply(i, a.status);
          (WithAttempt(s, i, a).(receipts := Record(s.receipts, Receipt(c, reply))), Some(Ok(reply)))
      case Logout(_) => (s.(mutex := Sweeping(c), loop := Sweep(s.first)), None)
  }

  // ---------------------------------------------------------------- steps

  datatype Step =
    | Request(command: Command)
    | SweepNext | SweepEnd
    | Remove(ok: bool) | LogoutReturns | LogoutAbandoned | StrayRemove
    | Begin(i: nat) | FactoryDone(i: nat, ok: bool) | AuthorizationDone(i: nat, ok: bool)
    | CompletionDone(i: nat, ok: bool) | SaveReturned(i: nat) | OauthClosed(i: nat) | TaskCancelled(i: nat)
    | TakeLocks(i: nat) | Write(i: nat, replaced: bool, ok: bool) | Commit(i: nat)
    | Close

  // The steps of one attempt's coroutine (on the event loop) and save thread (beside it).
  predicate TaskStep(step: Step) {
    step.Begin? || step.FactoryDone? || step.AuthorizationDone? || step.CompletionDone? || step.SaveReturned?
    || step.OauthClosed? || step.TaskCancelled?
  }

  predicate SaverStep(step: Step) { step.TakeLocks? || step.Write? || step.Commit? }

  predicate AttemptEnabled(a: Attempt, step: Step) {
    match step
    case Begin(_) => a.pc == Created
    case FactoryDone(_, _) => a.pc == Factory
    case AuthorizationDone(_, _) => a.pc == Authorizing
    case CompletionDone(_, _) => a.pc == Completing
    case SaveReturned(_) => a.pc == Saving && a.saver.Ended?
    case OauthClosed(_) => a.pc == Closing
    case TaskCancelled(_) => a.pc != Done && !HoldsLocks(a)
    case TakeLocks(_) => a.saver == Queued
    case Write(_, replaced, ok) => a.saver == Locked && (ok ==> replaced)
    case Commit(_) => a.saver == Wrote
    case _ => false
  }

  function AttemptNext(a: Attempt, step: Step): Attempt {
    match step
    case Begin(_) => a.(pc := Factory)
    case FactoryDone(_, ok) =>
      if !ok then Fail(a).(pc := Done) else a.(pc := if a.cancelled then Closing else Authorizing)
    case AuthorizationDone(_, ok) =>
      if !ok then Fail(a).(pc := Closing)
      else if a.cancelled then a.(pc := Closing)
      else a.(status := Waiting, pc := Completing)
    case CompletionDone(_, ok) => if !ok then Fail(a).(pc := Closing) else a.(pc := Saving, saver := Queued)
    case SaveReturned(_) => (if a.saver == Ended(false) then Fail(a) else a).(pc := Closing)
    case OauthClosed(_) => a.(pc := Done)
    case TaskCancelled(_) =>
      if a.pc in {Created, Closing} then a.(pc := Done)
      else Cancel(a).(pc := if a.pc == Factory then Done else Closing)
    case TakeLocks(_) => a.(saver := if a.cancelled then Ended(true) else Locked)
    case Write(_, _, ok) => a.(saver := if ok then Wrote else Ended(false))
    case Commit(_) => a.(status := Authenticated, saver := Ended(true))
    case _ => a
  }

  predicate Enabled(s: System, step: Step) {
    match step
    case Request(c) =>
      s.loop.Ready? && s.mutex.Free? && s.first <= |s.attempts|
      && (c.CancelLogin? && InTable(s, c.target) ==> !HoldsLocks(s.attempts[c.target]))
    case SweepNext => s.loop.Sweep? && s.loop.next < |s.attempts| && !HoldsLocks(s.attempts[s.loop.next])
    case SweepEnd => s.loop.Sweep? && s.loop.next == |s.attempts|
    case Remove(_) => s.mutex.Removing? && StoreFree(s)
    case LogoutReturns => s.mutex.Removed? && s.loop.Ready?
    case LogoutAbandoned => (s.mutex.Removing? || s.mutex.Removed?) && s.loop.Ready?
    case StrayRemove => s.strays > 0 && StoreFree(s)
    case Close => s.loop.Ready?
    case _ =>
      step.i < |s.attempts| && AttemptEnabled(s.attempts[step.i], step)
      && (TaskStep(step) ==> s.loop.Ready?) && (step.TakeLocks? ==> StoreFree(s))
  }

  function Next(s: System, step: Step): System
    requires Enabled(s, step)
  {
    match step
    case Request(c) => Answer(s, c).0
    case SweepNext =>
      WithAttempt(s, s.loop.next, Cancel(s.attempts[s.loop.next])).(loop := Sweep(s.loop.next + 1))
    case SweepEnd =>
      s.(loop := Ready, mutex := if s.mutex.Sweeping? then Removing(s.mutex.command) else s.mutex)
    case Remove(ok) =>
      if ok then s.(credential := None, mutex := Removed(s.mutex.command, s.credential.Some?)) else s.(mutex := Free)
    case LogoutReturns =>
      s.(mutex := Free, receipts := Record(s.receipts, Receipt(s.mutex.command, LogoutReply(s.mutex.removed))))
    case LogoutAbandoned => s.(mutex := Free, strays := s.strays + if s.mutex.Removing? then 1 else 0)
    case StrayRemove => s.(credential := None, strays := s.strays - 1)
    case Close => s.(closed := true, loop := Sweep(s.first))
    case _ =>
      var s1 := WithAttempt(s, step.i, AttemptNext(s.attempts[step.i], step));
      if step.Write? && step.replaced then s1.(credential := Some(step.i), written := s.written + [step.i]) else s1
  }

  predicate Runs(s: System, steps: seq<Step>)
    decreases steps
  {
    steps == [] || (Enabled(s, steps[0]) && Runs(Next(s, steps[0]), steps[1..]))
  }

  function After(s: System, steps: seq<Step>): System
    requires Runs(s, steps)
    decreases steps
  {
    if steps == [] then s else After(Next(s, steps[0]), steps[1..])
  }

  // ---------------------------------------------------------------- the invariant

  predicate GoodAttempt(a: Attempt) {
    && (a.cancelled ==> Terminal(a.status))
    && match a.pc
       case Created | Factory | Authorizing => a.saver == NoSaver && (!a.cancelled ==> a.status == Starting)
       case Completing => a.saver == NoSaver && (!a.cancelled ==> a.status == Waiting)
       case Saving =>
         && a.saver != NoSaver && (HoldsLocks(a) ==> !a.cancelled)
         && (!a.cancelled ==> a.status == if a.saver == Ended(true) then Authenticated else Waiting)
       case _ => !HoldsLocks(a) && (a.saver == Queued ==> a.cancelled) && (!a.cancelled ==> Concluded(a))
  }

  // How an attempt that nobody cancelled ends: saved, failed, or stopped before it began.
  predicate Concluded(a: Attempt) {
    || (a.status == Authenticated && a.saver == Ended(true)) || (a.status == Failed && a.saver != Ended(true))
    || (a.status == Starting && a.pc == Done && a.saver == NoSaver)
  }

  // The save thread of this attempt will not write any more.
  predicate CannotSave(a: Attempt) {
    !HoldsLocks(a) && (a.cancelled || (a.pc == Done && a.saver != Queued))
  }

  predicate NoneCanSave(s: System) { forall i :: 0 <= i < |s.attempts| ==> CannotSave(s.attempts[i]) }

  predicate TableShape(s: System) {
    && s.first <= |s.attempts| <= s.first + KEPT_ATTEMPTS && (s.attempts != [] ==> s.first < |s.attempts|)
    && |s.receipts| <= KEPT_RECEIPTS
    && (forall i, j :: 0 <= i < j < |s.receipts| ==> s.receipts[i].command.id != s.receipts[j].command.id)
    && (s.mutex != Free ==> FindReceipt(s.receipts, s.mutex.command.id).None?)
  }

  predicate AttemptsGood(s: System) {
    && (forall i :: 0 <= i < |s.attempts| ==> GoodAttempt(s.attempts[i]))
    && (forall i :: 0 <= i < |s.attempts| - 1 ==> !Live(s.attempts[i]))
  }

  predicate Sealed(s: System) {
    && (s.loop.Sweep? ==>
          && s.first <= s.loop.next <= |s.attempts| && (s.mutex.Sweeping? || s.closed)
          && forall i :: 0 <= i < s.loop.next ==> CannotSave(s.attempts[i]))
    && (s.mutex.Sweeping? ==> s.loop.Sweep?)
    && (s.mutex.Removing? || s.mutex.Removed? || (s.closed && s.loop.Ready?) ==> NoneCanSave(s))
    && (s.mutex.Removed? ==> s.credential.None?)
  }

  predicate WritesGood(s: System) {
    && (forall k :: 0 <= k < |s.written| ==>
          s.written[k] < |s.attempts| && s.attempts[s.written[k]].saver in {Wrote, Ended(true), Ended(false)})
    && (forall j, k :: 0 <= j < k < |s.written| ==> s.written[j] != s.written[k])
    && (s.credential.Some? ==> s.credential.value in s.written)
    && (forall i :: 0 <= i < |s.attempts| && (s.attempts[i].status == Authenticated || s.attempts[i].saver == Wrote)
          ==> i in s.written)
  }

  // A recorded cancellation stands.
  predicate CancelsStand(s: System) {
    forall r :: r in s.receipts && r.command.CancelLogin? ==>
      r.command.target < |s.attempts| && CannotSave(s.attempts[r.command.target])
      && Terminal(s.attempts[r.command.target].status)
  }

  predicate Inv(s: System) {
    TableShape(s) && AttemptsGood(s) && Sealed(s) && WritesGood(s) && CancelsStand(s)
    && (s.mutex != Free ==> s.mutex.command.Logout?)
  }

  lemma AttemptStep(a: Attempt, step: Step)
    requires GoodAttempt(a) && AttemptEnabled(a, step)
    ensures var b := AttemptNext(a, step);
            && GoodAttempt(b) && (!Live(a) ==> !Live(b)) && (CannotSave(a) ==> CannotSave(b))
            && (Terminal(a.status) ==> b.status == a.status)
            && (b.status == Authenticated ==> a.status == Authenticated || step.Commit?)
            && (b.saver == Wrote ==> step.Write? && step.ok)
            && (a.saver in {Wrote, Ended(true), Ended(false)} ==> b.saver in {Wrote, Ended(true), Ended(false)})
  {
  }

  lemma DoneCannotSave(a: Attempt)
    requires GoodAttempt(a) && !Live(a)
    ensures CannotSave(a)
  {
  }

  lemma RecordKeeps(receipts: seq<Receipt>, r: Receipt)
    requires |receipts| <= KEPT_RECEIPTS && FindReceipt(receipts, r.command.id).None?
    requires forall i, j :: 0 <= i < j < |receipts| ==> receipts[i].command.id != receipts[j].command.id
    ensures var all := Record(receipts, r);
            && |all| <= KEPT_RECEIPTS && all != [] && all[|all| - 1] == r
            && (forall i, j :: 0 <= i < j < |all| ==> all[i].command.id != all[j].command.id)
  {
    assert forall i :: 0 <= i < |receipts| ==> receipts[i] in receipts;
  }

  lemma {:induction false} ReceiptFound(receipts: seq<Receipt>, k: nat)
    requires k < |receipts|
    requires forall i, j :: 0 <= i < j < |receipts| ==> receipts[i].command.id != receipts[j].command.id
    ensures FindReceipt(receipts, receipts[k].command.id) == Some(receipts[k])
  {
    if k > 0 {
      ReceiptFound(receipts[1..], k - 1);
    }
  }

  predicate OwnStep(s: System, step: Step) { Enabled(s, step) && (TaskStep(step) || SaverStep(step)) }

  // What an own step makes of the system.
  ghost predicate IsOwn(s: System, step: Step, s': System) {
    && (TaskStep(step) || SaverStep(step)) && step.i < |s.attempts| && AttemptEnabled(s.attempts[step.i], step)
    && (TaskStep(step) ==> s.loop.Ready?)
    && var saves := step.Write? && step.replaced;
       s' == s.(attempts := s.attempts[step.i := AttemptNext(s.attempts[step.i], step)],
                credential := if saves then Some(step.i) else s.credential,
                written := if saves then s.written + [step.i] else s.written)
  }

  lemma OwnStepIs(s: System, step: Step)
    requires OwnStep(s, step)
    ensures IsOwn(s, step, Next(s, step))
  {
  }

  // The other steps cancel attempts, or start one.
  lemma OtherStepAttempts(s: System, step: Step, i: nat)
    requires Inv(s) && Enabled(s, step) && !OwnStep(s, step) && i < |Next(s, step).attempts|
    ensures var b := Next(s, step).attempts[i];
            if i < |s.attempts| then b == s.attempts[i] || b == Cancel(s.attempts[i])
            else b == Attempt(Starting, false, Created, NoSaver)
  {
  }

  lemma OtherStepKeepsAll(s: System, step: Step)
    requires Inv(s) && Enabled(s, step) && !OwnStep(s, step)
    ensures Next(s, step).written == s.written && |s.attempts| <= |Next(s, step).attempts|
  {
  }

  lemma OwnKeepsWrites(s: System, step: Step, s': System)
    requires Inv(s) && IsOwn(s, step, s')
    ensures WritesGood(s')
  {
    AttemptStep(s.attempts[step.i], step);
    assert forall i :: 0 <= i < |s.attempts| && i != step.i ==> s'.attempts[i] == s.attempts[i];
    if step.Write? {
      assert step.i !in s.written;
    }
  }

  lemma OwnKeepsSeal(s: System, step: Step, s': System)
    requires Inv(s) && IsOwn(s, step, s')
    ensures Sealed(s') && CancelsStand(s')
  {
    AttemptStep(s.attempts[step.i], step);
  }

  lemma OwnKeepsAttempts(s: System, step: Step, s': System)
    requires Inv(s) && IsOwn(s, step, s')
    ensures AttemptsGood(s') && TableShape(s')
  {
    AttemptStep(s.attempts[step.i], step);
  }

  lemma TaskStepKeeps(s: System, step: Step)
    requires Inv(s) && OwnStep(s, step)
    ensures Inv(Next(s, step))
  {
    OwnStepIs(s, step);
    OwnKeepsWrites(s, step, Next(s, step));
    OwnKeepsSeal(s, step, Next(s, step));
    OwnKeepsAttempts(s, step, Next(s, step));
  }

  lemma ReceiptKeeps(s: System, r: Receipt)
    requires Inv(s) && s.mutex.Free? && FindReceipt(s.receipts, r.command.id).None?
    requires CancelsStand(s.(receipts := [r]))
    ensures Inv(s.(receipts := Record(s.receipts, r)))
  {
    RecordKeeps(s.receipts, r);
  }

  lemma StartLoginKeeps(s: System)
    requires Inv(s) && s.mutex.Free? && s.loop.Ready? && !s.closed && FirstLive(s.attempts, s.first).None?
    ensures Inv(StartLogin(s))
  {
    var s' := StartLogin(s);
    forall i | 0 <= i < |s.attempts| ensures !Live(s.attempts[i]) && s'.attempts[i] == s.attempts[i] {
      assert i < s.first || s.first <= i;
    }
  }

  lemma CancelKeeps(s: System, i: nat)
    requires Inv(s) && i < |s.attempts| && !HoldsLocks(s.attempts[i])
    ensures Inv(WithAttempt(s, i, Cancel(s.attempts[i]))) && CannotSave(Cancel(s.attempts[i]))
  {
    var s' := WithAttempt(s, i, Cancel(s.attempts[i]));
    assert forall j :: 0 <= j < |s.attempts| && j != i ==> s'.attempts[j] == s.attempts[j];
  }

  lemma LogoutKeeps(s: System, c: Command)
    requires Inv(s) && s.mutex.Free? && s.loop.Ready? && FindReceipt(s.receipts, c.id).None? && c.Logout?
    ensures Inv(s.(mutex := Sweeping(c), loop := Sweep(s.first)))
  {
    forall i | 0 <= i < s.first ensures CannotSave(s.attempts[i]) {
      DoneCannotSave(s.attempts[i]);
    }
  }

  lemma RequestKeeps(s: System, c: Command)
    requires Inv(s) && Enabled(s, Request(c))
    ensures Inv(Next(s, Request(c)))
  {
    var s' := Next(s, Request(c));
    if s' != s {
      match c {
        case Login(_) =>
          var s1 := if FirstLive(s.attempts, s.first).Some? then s else StartLogin(s);
          if FirstLive(s.attempts, s.first).None? {
            StartLoginKeeps(s);
          }
          var i := if FirstLive(s.attempts, s.first).Some? then FirstLive(s.attempts, s.first).value else |s.attempts|;
          ReceiptKeeps(s1, Receipt(c, LoginReply(i, s1.attempts[i].status)));
        case CancelLogin(_, i) =>
          CancelKeeps(s, i);
          var s1 := WithAttempt(s, i, Cancel(s.attempts[i]));
          ReceiptKeeps(s1, Receipt(c, LoginReply(i, s1.attempts[i].status)));
        case Logout(_) => LogoutKeeps(s, c);
      }
    }
  }

  lemma LogoutReturnsKeeps(s: System)
    requires Inv(s) && Enabled(s, LogoutReturns)
    ensures Inv(Next(s, LogoutReturns))
  {
    ReceiptKeeps(s.(mutex := Free), Receipt(s.mutex.command, LogoutReply(s.mutex.removed)));
  }

  lemma SweepNextKeeps(s: System)
    requires Inv(s) && Enabled(s, SweepNext)
    ensures Inv(Next(s, SweepNext))
  {
    CancelKeeps(s, s.loop.next);
  }

  lemma CloseKeeps(s: System)
    requires Inv(s) && Enabled(s, Close)
    ensures Inv(Next(s, Close))
  {
    forall i | 0 <= i < s.first ensures CannotSave(s.attempts[i]) {
      DoneCannotSave(s.attempts[i]);
    }
  }

  predicate MutexStep(step: Step) {
    step.SweepEnd? || step.Remove? || step.LogoutAbandoned? || step.StrayRemove?
  }

  lemma MutexStepKeeps(s: System, step: Step)
    requires Inv(s) && Enabled(s, step) && MutexStep(step)
    ensures Inv(Next(s, step))
  {
  }

  lemma StepKeeps(s: System, step: Step)
    requires Inv(s) && Enabled(s, step)
    ensures Inv(Next(s, step))
  {
    if OwnStep(s, step) {
      TaskStepKeeps(s, step);
    } else if MutexStep(step) {
      MutexStepKeeps(s, step);
    } else if step.Request? {
      RequestKeeps(s, step.command);
    } else if step.LogoutReturns? {
      LogoutReturnsKeeps(s);
    } else if step.SweepNext? {
      SweepNextKeeps(s);
    } else {
      CloseKeeps(s);
    }
  }

  // Over every interleaving of requests, coroutines, save and delete threads, cancellations and shutdown.
  lemma {:induction false} EveryInterleavingKeeps(s: System, steps: seq<Step>)
    requires Inv(s) && Runs(s, steps)
    ensures Inv(After(s, steps))
    decreases steps
  {
    if steps != [] {
      StepKeeps(s, steps[0]);
      EveryInterleavingKeeps(Next(s, steps[0]), steps[1..]);
    }
  }

  // In every reachable state at most one login is live, an attempt has saved at most once, and one shown as
  // authenticated has saved.
  lemma OneLiveLogin(steps: seq<Step>)
    requires Runs(INITIAL, steps)
    ensures var s := After(INITIAL, steps);
            && (forall i, j :: 0 <= i < j < |s.attempts| ==> !(Live(s.attempts[i]) && Live(s.attempts[j])))
            && (forall j, k :: 0 <= j < k < |s.written| ==> s.written[j] != s.written[k])
            && (forall i :: 0 <= i < |s.attempts| && s.attempts[i].status == Authenticated ==> i in s.written)
            && |s.attempts| - s.first <= KEPT_ATTEMPTS && |s.receipts| <= KEPT_RECEIPTS
  {
    EveryInterleavingKeeps(INITIAL, steps);
  }

  function Rank(status: Status): nat {
    match status
    case Starting => 0
    case Waiting => 1
    case _ => 2
  }

  // What every step does to one attempt that already exists.
  ghost predicate Progress(s: System, s': System, i: nat) {
    && i < |s.attempts| <= |s'.attempts|
    && Rank(s.attempts[i].status) <= Rank(s'.attempts[i].status)
    && (Terminal(s.attempts[i].status) ==> s'.attempts[i].status == s.attempts[i].status)
    && (CannotSave(s.attempts[i]) ==> CannotSave(s'.attempts[i]) && (i in s'.written <==> i in s.written))
    && (i in s.written ==> i in s'.written)
  }

  lemma OwnProgress(s: System, step: Step, i: nat)
    requires Inv(s) && OwnStep(s, step) && i < |s.attempts|
    ensures Progress(s, Next(s, step), i)
  {
    OwnStepIs(s, step);
    OwnProgresses(s, step, Next(s, step), i);
  }

  lemma OwnProgresses(s: System, step: Step, s': System, i: nat)
    requires Inv(s) && IsOwn(s, step, s') && i < |s.attempts|
    ensures Progress(s, s', i)
  {
    AttemptStep(s.attempts[step.i], step);
  }

  lemma OtherProgress(s: System, step: Step, i: nat)
    requires Inv(s) && Enabled(s, step) && !OwnStep(s, step) && i < |s.attempts|
    ensures Progress(s, Next(s, step), i)
  {
  }

  lemma StepProgress(s: System, step: Step, i: nat)
    requires Inv(s) && Enabled(s, step) && i < |s.attempts|
    ensures Progress(s, Next(s, step), i)
  {
    if OwnStep(s, step) {
      OwnProgress(s, step, i);
    } else {
      OtherProgress(s, step, i);
    }
  }

  // Authenticated, cancelled and failed are absorbing; an attempt that cannot save never does.
  lemma {:induction false} StatusesAbsorb(s: System, steps: seq<Step>, i: nat)
    requires Inv(s) && Runs(s, steps) && i < |s.attempts|
    ensures Progress(s, After(s, steps), i)
    decreases steps
  {
    if steps != [] {
      StepKeeps(s, steps[0]);
      StepProgress(s, steps[0], i);
      StatusesAbsorb(Next(s, steps[0]), steps[1..], i);
    }
  }

  // Once cancel_login has answered (from its receipt or afresh), the attempt either had saved or never saves, and its
  // status no longer changes.
  lemma CancelIsFinal(s: System, c: Command, steps: seq<Step>)
    requires Inv(s) && c.CancelLogin? && Enabled(s, Request(c)) && Answer(s, c).1.Some? && Answer(s, c).1.value.Ok?
    requires Runs(Next(s, Request(c)), steps)
    ensures var s1 := Next(s, Request(c));
            var s2 := After(s1, steps);
            && c.target < |s.attempts| <= |s2.attempts|
            && (c.target in s2.written <==> c.target in s.written)
            && Terminal(s1.attempts[c.target].status)
            && s2.attempts[c.target].status == s1.attempts[c.target].status
  {
    var s1 := Next(s, Request(c));
    RequestKeeps(s, c);
    assert exists r :: r in s1.receipts && r.command == c by {
      if FindReceipt(s.receipts, c.id).None? {
        RecordKeeps(s.receipts, Receipt(c, Answer(s, c).1.value.value));
        assert s1.receipts[|s1.receipts| - 1] in s1.receipts;
      }
    }
    assert s1.written == s.written && |s1.attempts| == |s.attempts|;
    StatusesAbsorb(s1, steps, c.target);
  }

  // No attempt before the n-th can save, and none of them owns the credential on disk.
  ghost predicate Barred(s: System, n: nat) {
    && n <= |s.attempts| && (s.credential.Some? ==> s.credential.value >= n)
    && forall i :: 0 <= i < n ==> CannotSave(s.attempts[i])
  }

  lemma CredentialStep(s: System, step: Step)
    requires Inv(s) && Enabled(s, step)
    ensures var c := Next(s, step).credential;
            c == s.credential || c.None? || (step.Write? && c == Some(step.i) && s.attempts[step.i].saver == Locked)
  {
  }

  lemma StepBarred(s: System, n: nat, step: Step)
    requires Inv(s) && Enabled(s, step) && Barred(s, n)
    ensures Barred(Next(s, step), n)
  {
    var s' := Next(s, step);
    CredentialStep(s, step);
    forall i | 0 <= i < n ensures CannotSave(s'.attempts[i]) && |s.attempts| <= |s'.attempts| {
      StepProgress(s, step, i);
    }
    if n == 0 {
      assert |s'.attempts| >= n;
    }
  }

  lemma {:induction false} BarredForever(s: System, n: nat, steps: seq<Step>)
    requires Inv(s) && Runs(s, steps) && Barred(s, n)
    ensures Barred(After(s, steps), n)
    decreases steps
  {
    if steps != [] {
      StepKeeps(s, steps[0]);
      StepBarred(s, n, steps[0]);
      BarredForever(Next(s, steps[0]), n, steps[1..]);
    }
  }

  // After a logout that ran returns, no attempt started before it ever leaves a credential behind.
  lemma LogoutIsFinal(s: System, steps: seq<Step>)
    requires Inv(s) && Enabled(s, LogoutReturns) && Runs(Next(s, LogoutReturns), steps)
    ensures Next(s, LogoutReturns).credential.None?
    ensures Barred(After(Next(s, LogoutReturns), steps), |s.attempts|)
  {
    StepKeeps(s, LogoutReturns);
    BarredForever(Next(s, LogoutReturns), |s.attempts|, steps);
  }

  // A request repeated while its receipt is kept gets the recorded reply and does nothing; its id with other
  // content is refused.
  lemma RetryIsSilent(s: System, k: nat, c: Command)
    requires Inv(s) && k < |s.receipts| && c.id == s.receipts[k].command.id && !s.closed
    ensures Answer(s, c) == (s, Some(if c == s.receipts[k].command then Ok(s.receipts[k].reply) else Err(())))
  {
    ReceiptFound(s.receipts, k);
  }

  // ---------------------------------------------------------------- what requests answer

  ghost predicate Kept(receipts: seq<Receipt>, receipts': seq<Receipt>, r: Receipt) {
    receipts' == (if |receipts| < 128 then receipts else receipts[|receipts| - 127..]) + [r]
  }

  // What a first login request answers: the attempt whose task is not done, unless it is stopping; a new attempt when
  // there is none, for which the table keeps the last 32.
  lemma LoginAnswers(s: System, c: Command)
    requires Inv(s) && c.Login? && !s.closed && forall r :: r in s.receipts ==> r.command.id != c.id
    ensures var (s', out) := Answer(s, c);
            var n := |s.attempts|;
            if n > 0 && s.attempts[n - 1].pc != Done
            then if s.attempts[n - 1].cancelled then (s', out) == (s, Some(Err(())))
                 else out == Some(Ok(LoginReply(n - 1, s.attempts[n - 1].status)))
                      && s' == s.(receipts := s'.receipts) && Kept(s.receipts, s'.receipts, Receipt(c, out.value.value))
            else out == Some(Ok(LoginReply(n, Starting)))
                 && s' == s.(attempts := s.attempts + [Attempt(Starting, false, Created, NoSaver)], first := s'.first,
                             receipts := s'.receipts)
                 && s'.first == (if n + 1 - s.first <= 32 then s.first else n - 31)
                 && Kept(s.receipts, s'.receipts, Receipt(c, out.value.value))
  {
    var n := |s.attempts|;
    var live := FirstLive(s.attempts, s.first);
    assert live.Some? ==> live.value == n - 1;
    var reply := LoginReply(if live.Some? then n - 1 else n, if live.Some? then s.attempts[n - 1].status else Starting);
    RecordIs(s.receipts, Receipt(c, reply));
  }

  lemma RecordIs(receipts: seq<Receipt>, r: Receipt)
    requires |receipts| <= 128
    ensures Kept(receipts, Record(receipts, r), r)
  {
    if |receipts| == 128 {
      assert (receipts + [r])[1..] == receipts[1..] + [r];
    }
  }

  // What a first cancellation answers: an attempt still in the table is stopped, and shown cancelled unless it had
  // ended.
  lemma CancelAnswers(s: System, c: Command)
    requires Inv(s) && c.CancelLogin? && !s.closed && forall r :: r in s.receipts ==> r.command.id != c.id
    ensures var (s', out) := Answer(s, c);
            if c.target < s.first || c.target >= |s.attempts| then (s', out) == (s, Some(Err(())))
            else
              var (a, b) := (s.attempts[c.target], s'.attempts[c.target]);
              && s' == s.(attempts := s.attempts[c.target := b], receipts := s'.receipts)
              && b == a.(cancelled := true, status := b.status)
              && b.status == (if a.status == Starting || a.status == Waiting then Cancelled else a.status)
              && out == Some(Ok(LoginReply(c.target, b.status)))
              && Kept(s.receipts, s'.receipts, Receipt(c, out.value.value))
  {
    if s.first <= c.target < |s.attempts| {
      var b := Cancel(s.attempts[c.target]);
      RecordIs(s.receipts, Receipt(c, LoginReply(c.target, b.status)));
    }
  }

  // ---------------------------------------------------------------- how a login ends

  // In every reachable state, a login whose task is done and that nobody cancelled has saved or failed, or was stopped
  // before it began; and only one that has saved is shown as authenticated.
  lemma DoneShowsOutcome(steps: seq<Step>, i: nat)
    requires Runs(INITIAL, steps) && i < |After(INITIAL, steps).attempts|
    ensures var a := After(INITIAL, steps).attempts[i];
            && (a.pc == Done && !a.cancelled ==>
                  || a.status == Authenticated || a.status == Failed || (a.status == Starting && a.saver == NoSaver))
            && (a.status == Authenticated ==> i in After(INITIAL, steps).written)
            && (a.cancelled ==> a.status == Authenticated || a.status == Cancelled || a.status == Failed)
  {
    EveryInterleavingKeeps(INITIAL, steps);
    assert GoodAttempt(After(INITIAL, steps).attempts[i]);
  }

  // What a login has been through when it stands here.
  ghost predicate Earned(a: Attempt, i: nat, steps: seq<Step>) {
    && (a.pc == Authorizing || a.pc == Completing || a.pc == Saving || a.saver != NoSaver ==>
          FactoryDone(i, true) in steps)
    && (a.pc == Completing || a.pc == Saving || a.saver != NoSaver ==> AuthorizationDone(i, true) in steps)
    && (a.saver != NoSaver ==> CompletionDone(i, true) in steps)
    && (a.saver == Wrote ==> Write(i, true, true) in steps)
    && (a.status == Authenticated ==> Commit(i) in steps && Write(i, true, true) in steps)
  }

  ghost predicate AllEarned(s: System, steps: seq<Step>) {
    && (forall i :: 0 <= i < |s.attempts| ==> Earned(s.attempts[i], i, steps))
    && (forall i :: i in s.written ==> i < |s.attempts| && s.attempts[i].saver != NoSaver)
  }

  lemma AttemptEarned(a: Attempt, i: nat, steps: seq<Step>, step: Step)
    requires Earned(a, i, steps) && GoodAttempt(a) && AttemptEnabled(a, step) && step.i == i
    requires TaskStep(step) || SaverStep(step)
    ensures Earned(AttemptNext(a, step), i, steps + [step])
  {
  }

  lemma EarnedGrows(a: Attempt, i: nat, steps: seq<Step>, step: Step)
    requires Earned(a, i, steps)
    ensures Earned(a, i, steps + [step]) && Earned(Cancel(a), i, steps + [step])
  {
  }

  lemma OtherStepEarned(s: System, steps: seq<Step>, step: Step)
    requires Inv(s) && Enabled(s, step) && !OwnStep(s, step) && AllEarned(s, steps)
    ensures AllEarned(Next(s, step), steps + [step])
  {
    var s' := Next(s, step);
    OtherStepKeepsAll(s, step);
    forall i | 0 <= i < |s'.attempts|
      ensures Earned(s'.attempts[i], i, steps + [step])
      ensures i < |s.attempts| && s.attempts[i].saver != NoSaver ==> s'.attempts[i].saver != NoSaver
    {
      OtherStepAttempts(s, step, i);
      if i < |s.attempts| {
        EarnedGrows(s.attempts[i], i, steps, step);
      }
    }
  }

  lemma OwnStepEarned(s: System, steps: seq<Step>, step: Step, s': System)
    requires AllEarned(s, steps) && IsOwn(s, step, s') && GoodAttempt(s.attempts[step.i])
    ensures AllEarned(s', steps + [step])
  {
    AttemptEarned(s.attempts[step.i], step.i, steps, step);
    forall i | 0 <= i < |s.attempts| ensures Earned(s'.attempts[i], i, steps + [step]) {
      EarnedGrows(s.attempts[i], i, steps, step);
    }
    SaverStays(s.attempts[step.i], step);
  }

  lemma SaverStays(a: Attempt, step: Step)
    requires AttemptEnabled(a, step) && GoodAttempt(a)
    ensures a.saver != NoSaver || step.Write? ==> AttemptNext(a, step).saver != NoSaver
  {
  }

  lemma StepEarned(s: System, steps: seq<Step>, step: Step)
    requires Inv(s) && Enabled(s, step) && AllEarned(s, steps)
    ensures AllEarned(Next(s, step), steps + [step])
  {
    if OwnStep(s, step) {
      OwnStepIs(s, step);
      OwnStepEarned(s, steps, step, Next(s, step));
    } else {
      OtherStepEarned(s, steps, step);
    }
  }

  lemma {:induction false} RunsEarned(s: System, before: seq<Step>, steps: seq<Step>)
    requires Inv(s) && Runs(s, steps) && AllEarned(s, before)
    ensures AllEarned(After(s, steps), before + steps)
    decreases steps
  {
    if steps == [] {
      EmptySides(before);
    } else {
      StepKeeps(s, steps[0]);
      StepEarned(s, before, steps[0]);
      RunsEarned(Next(s, steps[0]), before + [steps[0]], steps[1..]);
      assert before + steps == before + [steps[0]] + steps[1..];
    }
  }

  // Over every run: only a login whose client was made, whose device was authorised and whose authorisation completed
  // ever touches the credential, and one shown as authenticated has written it without an error.
  lemma SavedMeansSucceeded(steps: seq<Step>, i: nat)
    requires Runs(INITIAL, steps) && i < |After(INITIAL, steps).attempts|
    ensures var s := After(INITIAL, steps);
            && (i in s.written ==>
                  && FactoryDone(i, true) in steps && AuthorizationDone(i, true) in steps
                  && CompletionDone(i, true) in steps)
            && (s.attempts[i].status == Authenticated ==> Write(i, true, true) in steps)
  {
    RunsEarned(INITIAL, [], steps);
    EmptySides(steps);
  }

  // A step of a login that raises.
  ghost predicate Raises(a: Attempt, step: Step) {
    match step
    case FactoryDone(_, ok) => !ok
    case AuthorizationDone(_, ok) => !ok
    case CompletionDone(_, ok) => !ok
    case SaveReturned(_) => a.saver == Ended(false)
    case _ => false
  }

  // A login that raises is shown failed, unless it was cancelled, and never touches the credential again.
  lemma RaisingShows(s: System, step: Step, steps: seq<Step>)
    requires Inv(s) && OwnStep(s, step) && Raises(s.attempts[step.i], step) && Runs(Next(s, step), steps)
    ensures var (a, b, s') := (s.attempts[step.i], After(Next(s, step), steps).attempts, After(Next(s, step), steps));
            && step.i < |b| && (!a.cancelled ==> b[step.i].status == Failed)
            && (step.i in s'.written <==> step.i in s.written)
  {
    var s1 := Next(s, step);
    StepKeeps(s, step);
    StatusesAbsorb(s1, steps, step.i);
    WritesOnce(s1, step.i, steps);
  }

  lemma OwnWritesOnce(s: System, i: nat, step: Step, s': System)
    requires Inv(s) && IsOwn(s, step, s') && i < |s.attempts| && !MaySave(s.attempts[i])
    ensures i < |s'.attempts| && !MaySave(s'.attempts[i]) && (i in s'.written <==> i in s.written)
  {
    if step.i == i {
      MaySaveStep(s.attempts[i], step);
    }
  }

  lemma StepWritesOnce(s: System, i: nat, step: Step)
    requires Inv(s) && Enabled(s, step) && i < |s.attempts| && !MaySave(s.attempts[i])
    ensures var s' := Next(s, step);
            i < |s'.attempts| && !MaySave(s'.attempts[i]) && (i in s'.written <==> i in s.written)
  {
    if OwnStep(s, step) {
      OwnStepIs(s, step);
      OwnWritesOnce(s, i, step, Next(s, step));
    } else {
      OtherStepKeepsAll(s, step);
      OtherStepAttempts(s, step, i);
    }
  }

  lemma {:induction false} WritesOnce(s: System, i: nat, steps: seq<Step>)
    requires Inv(s) && Runs(s, steps) && i < |s.attempts| && !MaySave(s.attempts[i])
    ensures i < |After(s, steps).attempts| && (i in After(s, steps).written <==> i in s.written)
    decreases steps
  {
    if steps != [] {
      StepKeeps(s, steps[0]);
      StepWritesOnce(s, i, steps[0]);
      WritesOnce(Next(s, steps[0]), i, steps[1..]);
    }
  }

  // ---------------------------------------------------------------- how a logout ends

  // The removal of a logout: it answers whether there was a credential, which is gone; one that raises answers nothing
  // and leaves it.
  lemma RemovalAnswers(s: System, ok: bool)
    requires Inv(s) && Enabled(s, Remove(ok))
    ensures var s' := Next(s, Remove(ok));
            if ok then s'.credential.None? && s'.mutex == Removed(s.mutex.command, s.credential.Some?)
                       && s' == s.(credential := s'.credential, mutex := s'.mutex)
            else s' == s.(mutex := Free)
  {
  }

  lemma LogoutAnswers(s: System)
    requires Inv(s) && Enabled(s, LogoutReturns)
    ensures var s' := Next(s, LogoutReturns);
            && s' == s.(mutex := Free, receipts := s'.receipts)
            && Kept(s.receipts, s'.receipts, Receipt(s.mutex.command, LogoutReply(s.mutex.removed)))
  {
    RecordIs(s.receipts, Receipt(s.mutex.command, LogoutReply(s.mutex.removed)));
  }

  // How many logouts were abandoned with their removal still to come, and how many of those removals have come.
  function Abandoned(s: System, steps: seq<Step>): nat
    requires Runs(s, steps)
    decreases steps
  {
    if steps == [] then 0
    else (if steps[0].LogoutAbandoned? && s.mutex.Removing? then 1 else 0) + Abandoned(Next(s, steps[0]), steps[1..])
  }

  function Strayed(steps: seq<Step>): nat {
    if steps == [] then 0 else (if steps[0].StrayRemove? then 1 else 0) + Strayed(steps[1..])
  }

  // Every abandoned removal is carried out at most once, and what it removes is gone.
  lemma {:induction false} StraysAreConserved(s: System, steps: seq<Step>)
    requires Runs(s, steps)
    ensures After(s, steps).strays + Strayed(steps) == s.strays + Abandoned(s, steps)
    ensures steps != [] && steps[|steps| - 1].StrayRemove? ==> After(s, steps).credential.None?
    decreases steps
  {
    if steps != [] {
      StraysAreConserved(Next(s, steps[0]), steps[1..]);
    }
  }

  // Once shutdown has swept, nothing is ever saved or started again.
  lemma {:induction false} CloseIsFinal(s: System, steps: seq<Step>)
    requires Inv(s) && s.closed && NoneCanSave(s) && Runs(s, steps)
    ensures var s' := After(s, steps); s'.closed && s'.written == s.written && |s'.attempts| == |s.attempts|
    decreases steps
  {
    if steps != [] {
      StepKeeps(s, steps[0]);
      var s1 := Next(s, steps[0]);
      assert |s1.attempts| == |s.attempts|;
      forall i | 0 <= i < |s.attempts| ensures CannotSave(s1.attempts[i]) {
        StepProgress(s, steps[0], i);
      }
      CloseIsFinal(s1, steps[1..]);
    }
  }

  // ---------------------------------------------------------------- a replayed logout

  function WholeLogin(n: nat, id: string): seq<Step> { [Request(Login(id))] + OwnSteps(n, 0) }

  predicate Quiet(s: System) {
    s.loop.Ready? && s.mutex.Free? && !s.closed && forall a :: a in s.attempts ==> !Live(a) && !HoldsLocks(a)
  }

  lemma RunsCons(s: System, step: Step, rest: seq<Step>)
    requires Enabled(s, step) && Runs(Next(s, step), rest)
    ensures Runs(s, [step] + rest) && After(s, [step] + rest) == After(Next(s, step), rest)
  {
    assert ([step] + rest)[1..] == rest;
  }

  // The coroutine and save thread of the newest attempt, taken one step further.
  lemma NewestSteps(s: System, n: nat, a: Attempt, step: Step)
    requires s.attempts != [] && n == |s.attempts| - 1 && s.attempts[n] == a && s.loop.Ready?
    requires (TaskStep(step) || SaverStep(step)) && step.i == n && AttemptEnabled(a, step)
    requires forall b :: b in s.attempts[..n] ==> !HoldsLocks(b)
    requires step.TakeLocks? ==> !HoldsLocks(a)
    ensures Enabled(s, step)
    ensures var s' := Next(s, step);
            && s'.attempts == s.attempts[..n] + [AttemptNext(a, step)] && s'.first == s.first
            && s'.receipts == s.receipts && s'.mutex == s.mutex && s'.loop == s.loop && s'.closed == s.closed
            && s'.credential == if step.Write? && step.replaced then Some(n) else s.credential
  {
    forall b | b in s.attempts ensures b in s.attempts[..n] || b == a {
      assert s.attempts == s.attempts[..n] + [a];
    }
  }

  // A quiet system always admits a complete login, which leaves its credential on disk.
  lemma LoginCompletes(s: System, id: string)
    requires Inv(s) && Quiet(s) && FindReceipt(s.receipts, id).None?
    ensures var n := |s.attempts|;
            && Runs(s, WholeLogin(n, id))
            && var s' := After(s, WholeLogin(n, id));
               && s'.credential == Some(n) && s'.mutex.Free? && s'.loop.Ready? && !s'.closed
               && s'.receipts == Record(s.receipts, Receipt(Login(id), LoginReply(n, Starting)))
  {
    var n := |s.attempts|;
    assert FirstLive(s.attempts, s.first).None?;
    var s1 := Next(s, Request(Login(id)));
    assert s1.attempts[..n] == s.attempts;
    ContinueLogin(s1, n, 0);
    RunsCons(s, Request(Login(id)), OwnSteps(n, 0));
  }

  // The k-th own step of a login that goes well.
  function OwnStepOf(n: nat, k: nat): Step {
    match k
    case 0 => Begin(n)
    case 1 => FactoryDone(n, true)
    case 2 => AuthorizationDone(n, true)
    case 3 => CompletionDone(n, true)
    case 4 => TakeLocks(n)
    case 5 => Write(n, true, true)
    case 6 => Commit(n)
    case 7 => SaveReturned(n)
    case _ => OauthClosed(n)
  }

  lemma LoginStep(n: nat, k: nat)
    requires k <= 8
    ensures var step := OwnStepOf(n, k);
            && (TaskStep(step) || SaverStep(step)) && step.i == n && AttemptEnabled(ProgressOf(k), step)
            && AttemptNext(ProgressOf(k), step) == ProgressOf(k + 1)
            && (step.TakeLocks? ==> !HoldsLocks(ProgressOf(k))) && (step.Write? <==> k == 5)
  {
  }

  function OwnSteps(n: nat, k: nat): seq<Step>
    decreases 9 - k
  {
    if k >= 9 then [] else [OwnStepOf(n, k)] + OwnSteps(n, k + 1)
  }

  // The steps of a whole login after its request.
  lemma {:induction false} ContinueLogin(s: System, n: nat, k: nat)
    requires s.attempts != [] && n == |s.attempts| - 1 && s.loop.Ready? && s.mutex.Free? && !s.closed && k <= 9
    requires forall b :: b in s.attempts[..n] ==> !HoldsLocks(b)
    requires s.attempts[n] == ProgressOf(k) && (k > 5 ==> s.credential == Some(n))
    ensures Runs(s, OwnSteps(n, k))
    ensures var s' := After(s, OwnSteps(n, k));
            s'.credential == Some(n) && s'.mutex.Free? && s'.loop.Ready? && !s'.closed && s'.receipts == s.receipts
    decreases 9 - k
  {
    if k < 9 {
      var step := OwnStepOf(n, k);
      LoginStep(n, k);
      NewestSteps(s, n, ProgressOf(k), step);
      var s1 := Next(s, step);
      assert s1.attempts[..n] == s.attempts[..n];
      ContinueLogin(s1, n, k + 1);
      RunsCons(s, step, OwnSteps(n, k + 1));
    }
  }

  // The attempt after its first k own steps, all of which succeed.
  function ProgressOf(k: nat): Attempt {
    match k
    case 0 => Attempt(Starting, false, Created, NoSaver)
    case 1 => Attempt(Starting, false, Factory, NoSaver)
    case 2 => Attempt(Starting, false, Authorizing, NoSaver)
    case 3 => Attempt(Waiting, false, Completing, NoSaver)
    case 4 => Attempt(Waiting, false, Saving, Queued)
    case 5 => Attempt(Waiting, false, Saving, Locked)
    case 6 => Attempt(Waiting, false, Saving, Wrote)
    case 7 => Attempt(Authenticated, false, Saving, Ended(true))
    case 8 => Attempt(Authenticated, false, Closing, Ended(true))
    case _ => Attempt(Authenticated, false, Done, Ended(true))
  }

  // The attempt may still replace the credential on disk.
  predicate MaySave(a: Attempt) {
    !a.cancelled
    && (a.pc in {Created, Factory, Authorizing, Completing} || (a.pc == Saving && a.saver in {Queued, Locked}))
  }

  // None of the first n attempts owns the credential or may still save.
  ghost predicate Spent(s: System, n: nat) {
    && n <= |s.attempts| && (s.credential.Some? ==> s.credential.value >= n)
    && forall i :: 0 <= i < n ==> !MaySave(s.attempts[i])
  }

  lemma MaySaveStep(a: Attempt, step: Step)
    requires GoodAttempt(a) && AttemptEnabled(a, step) && !MaySave(a)
    ensures !MaySave(AttemptNext(a, step)) && !step.Write?
  {
  }

  lemma OwnSpent(s: System, n: nat, step: Step, s': System)
    requires Inv(s) && IsOwn(s, step, s') && Spent(s, n)
    ensures Spent(s', n)
  {
    if step.i < n {
      MaySaveStep(s.attempts[step.i], step);
    }
  }

  lemma StepSpent(s: System, n: nat, step: Step)
    requires Inv(s) && Enabled(s, step) && Spent(s, n)
    ensures Spent(Next(s, step), n)
  {
    var s' := Next(s, step);
    if OwnStep(s, step) {
      OwnStepIs(s, step);
      OwnSpent(s, n, step, s');
    } else {
      CredentialStep(s, step);
      OtherStepKeepsAll(s, step);
      forall i | 0 <= i < n ensures i < |s'.attempts| && s'.attempts[i] in {s.attempts[i], Cancel(s.attempts[i])} {
        OtherStepAttempts(s, step, i);
      }
    }
  }

  lemma {:induction false} SpentForever(s: System, n: nat, steps: seq<Step>)
    requires Inv(s) && Runs(s, steps) && Spent(s, n)
    ensures Spent(After(s, steps), n)
    decreases steps
  {
    if steps != [] {
      StepKeeps(s, steps[0]);
      StepSpent(s, n, steps[0]);
      SpentForever(Next(s, steps[0]), n, steps[1..]);
    }
  }

  // An attempt that may still save is the newest, and stands where a login that goes well once stood.
  lemma MaySaveIsNewest(s: System, i: nat) returns (k: nat)
    requires Inv(s) && i < |s.attempts| && MaySave(s.attempts[i])
    ensures i == |s.attempts| - 1 && k <= 5 && s.attempts[i] == ProgressOf(k)
    ensures forall b :: b in s.attempts[..i] ==> !HoldsLocks(b)
  {
    var a := s.attempts[i];
    assert GoodAttempt(a);
    k := if a.pc == Created then 0
         else if a.pc == Factory then 1
         else if a.pc == Authorizing then 2
         else if a.pc == Completing then 3
         else if a.saver == Queued then 4 else 5;
    assert forall j :: 0 <= j < i ==> GoodAttempt(s.attempts[j]) && !Live(s.attempts[j]);
  }

  // Some continuation has a credential of one of the first n attempts on disk.
  ghost predicate LeavesCredential(s: System, n: nat) {
    exists steps :: Runs(s, steps) && After(s, steps).credential.Some? && After(s, steps).credential.value < n
  }

  lemma LeavesCredentialIff(s: System)
    requires Inv(s) && s.loop.Ready? && s.mutex.Free? && !s.closed
    ensures LeavesCredential(s, |s.attempts|)
            <==> s.credential.Some? || exists i :: 0 <= i < |s.attempts| && MaySave(s.attempts[i])
  {
    var n := |s.attempts|;
    if s.credential.Some? {
      assert Runs(s, []) && After(s, []) == s;
    } else if i :| 0 <= i < n && MaySave(s.attempts[i]) {
      var k := MaySaveIsNewest(s, i);
      ContinueLogin(s, i, k);
    } else {
      forall steps | Runs(s, steps) ensures Spent(After(s, steps), n) {
        SpentForever(s, n, steps);
      }
    }
  }

  // A logout runs (sweeps and deletes) exactly when its request id has no receipt. One that is answered from a receipt
  // changes nothing, and leaves a credential of an attempt started before it exactly when one is on disk or an attempt
  // may still save.
  lemma LogoutRunsIff(s: System, c: Command)
    requires Inv(s) && c.Logout? && Enabled(s, Request(c)) && !s.closed
    ensures var s' := Next(s, Request(c));
            && (s'.mutex == Sweeping(c) <==> forall r :: r in s.receipts ==> r.command.id != c.id)
            && (s'.mutex != Sweeping(c) ==>
                  && s' == s
                  && (LeavesCredential(s, |s.attempts|)
                      <==> s.credential.Some? || exists i :: 0 <= i < |s.attempts| && MaySave(s.attempts[i])))
  {
    LeavesCredentialIff(s);
  }

  // ---------------------------------------------------------------- a logout nothing interleaves with

  function Swept(attempts: seq<Attempt>, from: nat, to: nat): seq<Attempt> {
    seq(|attempts|, i requires 0 <= i < |attempts| => if from <= i < to then Cancel(attempts[i]) else attempts[i])
  }

  function LoggedOut(s: System, c: Command): System {
    s.(attempts := Swept(s.attempts, s.first, |s.attempts|), credential := None,
       receipts := Record(s.receipts, Receipt(c, LogoutReply(s.credential.Some?))))
  }

  // What a logout leaves: every attempt of the table is stopped, and shown cancelled unless it had ended; the
  // credential is gone; and the answer says whether there was one.
  lemma LoggedOutMeans(s: System, c: Command)
    requires Inv(s)
    ensures var s' := LoggedOut(s, c);
            && s'.credential.None? && s' == s.(attempts := s'.attempts, credential := None, receipts := s'.receipts)
            && Kept(s.receipts, s'.receipts, Receipt(c, LogoutReply(s.credential.Some?)))
            && |s'.attempts| == |s.attempts|
            && forall i :: 0 <= i < |s.attempts| ==>
                 var (a, b) := (s.attempts[i], s'.attempts[i]);
                 if i < s.first then b == a
                 else b == a.(cancelled := true, status := b.status)
                      && b.status == if a.status == Starting || a.status == Waiting then Cancelled else a.status
  {
    RecordIs(s.receipts, Receipt(c, LogoutReply(s.credential.Some?)));
  }

  // What is left to do when the sweep has come to attempt k.
  function SweepFrom(attempts: nat, k: nat): seq<Step>
    decreases attempts - k
  {
    if k >= attempts then [SweepEnd, Remove(true), LogoutReturns] else [SweepNext] + SweepFrom(attempts, k + 1)
  }

  function Sweeps(s: System, c: Command, k: nat): System {
    s.(attempts := Swept(s.attempts, s.first, k), mutex := Sweeping(c), loop := Sweep(k))
  }

  lemma SweptStoreFree(s: System, k: nat)
    requires StoreFree(s)
    ensures forall a :: a in Swept(s.attempts, s.first, k) ==> !HoldsLocks(a)
  {
    var swept := Swept(s.attempts, s.first, k);
    forall a | a in swept ensures !HoldsLocks(a) {
      var i :| 0 <= i < |swept| && swept[i] == a;
      assert s.attempts[i] in s.attempts;
    }
  }

  lemma SweepEnds(s: System, c: Command)
    requires StoreFree(s) && s.mutex.Free? && s.loop.Ready?
    ensures var steps := [SweepEnd, Remove(true), LogoutReturns];
            var swept := Sweeps(s, c, |s.attempts|);
            Runs(swept, steps) && After(swept, steps) == LoggedOut(s, c)
  {
    var s1 := Sweeps(s, c, |s.attempts|);
    SweptStoreFree(s, |s.attempts|);
    var s2 := Next(s1, SweepEnd);
    var s3 := Next(s2, Remove(true));
    RunsCons(s3, LogoutReturns, []);
    RunsCons(s2, Remove(true), [LogoutReturns]);
    RunsCons(s1, SweepEnd, [Remove(true), LogoutReturns]);
    assert [LogoutReturns] + [] == [LogoutReturns];
    assert [Remove(true)] + [LogoutReturns] == [Remove(true), LogoutReturns];
    assert [SweepEnd] + [Remove(true), LogoutReturns] == [SweepEnd, Remove(true), LogoutReturns];
  }

  lemma {:induction false} SweepRuns(s: System, c: Command, k: nat)
    requires StoreFree(s) && s.mutex.Free? && s.loop.Ready? && s.first <= k <= |s.attempts|
    ensures Runs(Sweeps(s, c, k), SweepFrom(|s.attempts|, k))
    ensures After(Sweeps(s, c, k), SweepFrom(|s.attempts|, k)) == LoggedOut(s, c)
    decreases |s.attempts| - k
  {
    if k == |s.attempts| {
      SweepEnds(s, c);
    } else {
      var now := Sweeps(s, c, k);
      assert s.attempts[k] in s.attempts;
      assert Next(now, SweepNext).attempts == Swept(s.attempts, s.first, k + 1);
      SweepRuns(s, c, k + 1);
      RunsCons(now, SweepNext, SweepFrom(|s.attempts|, k + 1));
    }
  }

  // Undisturbed, a logout that runs cancels every attempt, removes the credential and records its reply.
  lemma UndisturbedLogout(s: System, c: Command)
    requires c.Logout? && Enabled(s, Request(c)) && StoreFree(s) && !s.closed && FindReceipt(s.receipts, c.id).None?
    ensures var steps := [Request(c)] + SweepFrom(|s.attempts|, s.first);
            Runs(s, steps) && After(s, steps) == LoggedOut(s, c)
  {
    assert Swept(s.attempts, s.first, s.first) == s.attempts;
    SweepRuns(s, c, s.first);
    RunsCons(s, Request(c), SweepFrom(|s.attempts|, s.first));
  }

  // Whenever a logout receipt will survive one more entry, the same logout can be asked again after a new login:
  // it answers as before and the credential of the earlier attempt stays.
  lemma ReplayedLogoutLeavesCredential(s: System, k: nat, id: string)
    requires Inv(s) && Quiet(s) && FindReceipt(s.receipts, id).None?
    requires k < |s.receipts| && s.receipts[k].command.Logout? && (k > 0 || |s.receipts| < KEPT_RECEIPTS)
    ensures var c := s.receipts[k].command;
            exists steps :: Runs(s, steps)
              && var s' := After(s, steps);
                 && Enabled(s', Request(c)) && Answer(s', c) == (s', Some(Ok(s.receipts[k].reply)))
                 && s'.credential == Some(|s.attempts|)
  {
    var n := |s.attempts|;
    LoginCompletes(s, id);
    var steps := WholeLogin(n, id);
    var s' := After(s, steps);
    EveryInterleavingKeeps(s, steps);
    var j := if |s.receipts| < KEPT_RECEIPTS then k else k - 1;
    assert s'.receipts[j] == s.receipts[k];
    RetryIsSilent(s', j, s.receipts[k].command);
  }

  // Such a state is reached by a single logout.
  lemma LogoutLeavesReceipt(id: string)
    ensures var steps := [Request(Logout(id)), SweepEnd, Remove(true), LogoutReturns];
            && Runs(INITIAL, steps) && Quiet(After(INITIAL, steps))
            && After(INITIAL, steps).receipts == [Receipt(Logout(id), LogoutReply(false))]
  {
    var s1 := Next(INITIAL, Request(Logout(id)));
    var s2 := Next(s1, SweepEnd);
    var s3 := Next(s2, Remove(true));
    RunsCons(s3, LogoutReturns, []);
    RunsCons(s2, Remove(true), [LogoutReturns]);
    RunsCons(s1, SweepEnd, [Remove(true), LogoutReturns]);
    RunsCons(INITIAL, Request(Logout(id)), [SweepEnd, Remove(true), LogoutReturns]);
    assert [LogoutReturns] + [] == [LogoutReturns];
    assert [Remove(true)] + [LogoutReturns] == [Remove(true), LogoutReturns];
    assert [SweepEnd] + [Remove(true), LogoutReturns] == [SweepEnd, Remove(true), LogoutReturns];
    assert [Request(Logout(id))] + [SweepEnd, Remove(true), LogoutReturns]
      == [Request(Logout(id)), SweepEnd, Remove(true), LogoutReturns];
  }
}
