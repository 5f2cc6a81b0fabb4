// harness/approvals/store.py and waiting.py: durable approval rows and the waits around them. Timestamps are numbers.
module Approvals {
  import opened Wrappers

  datatype Status = Pending | Approved | Denied | Expired

  datatype Submission = Submission(
    taskId: string, fingerprint: string, operation: string, risk: string, reason: string, expiresAt: Option<int>)

  datatype Row = Row(
    id: string, content: Submission, status: Status, requestedAt: int,
    decidedAt: Option<int>, decidedBy: Option<string>,
    note: Option<string>)

  // ---------------------------------------------------------------- the table

  function FindId(rows: seq<Row>, id: string): (r: Option<nat>)
    ensures r.Some? ==> r.value < |rows| && rows[r.value].id == id
    ensures r.None? ==> forall x :: x in rows ==> x.id != id
  {
    if rows == [] then None
    else if rows[0].id == id then Some(0)
    else
      var rest := FindId(rows[1..], id);
      if rest.None? then None else Some(rest.value + 1)
  }

  function FindFingerprint(rows: seq<Row>, taskId: string, fingerprint: string): (r: Option<nat>)
    ensures r.Some? ==> r.value < |rows| && rows[r.value].content.taskId == taskId
                        && rows[r.value].content.fingerprint == fingerprint
    ensures r.None? ==> forall x :: x in rows ==> x.content.taskId != taskId || x.content.fingerprint != fingerprint
  {
    if rows == [] then None
    else if rows[0].content.taskId == taskId && rows[0].content.fingerprint == fingerprint then Some(0)
    else
      var rest := FindFingerprint(rows[1..], taskId, fingerprint);
      if rest.None? then None else Some(rest.value + 1)
  }

  predicate SameRequest(a: Submission, b: Submission) {
    a.operation == b.operation && a.risk == b.risk && a.reason == b.reason && a.expiresAt == b.expiresAt
  }

  // INSERT OR IGNORE, then the row of this task and fingerprint; `id` is the fresh uuid.
  function Ask(rows: seq<Row>, s: Submission, id: string, now: int): (seq<Row>, Result<Row, ()>) {
    var known := FindFingerprint(rows, s.taskId, s.fingerprint);
    if known.None? then
      var row := Row(id, s, Pending, now, None, None, None);
      (rows + [row], Ok(row))
    else (rows, if SameRequest(rows[known.value].content, s) then Ok(rows[known.value]) else Err(()))
  }

  predicate Due(row: Row, now: int) {
    row.status in {Pending, Approved} && row.content.expiresAt.Some? && row.content.expiresAt.value <= now
  }

  function Coalesce<T>(a: Option<T>, b: T): Option<T> { if a.Some? then a else Some(b) }

  function Lapse(row: Row, now: int): Row {
    if !Due(row, now) then row
    else
      row.(status := Expired, decidedAt := Coalesce(row.decidedAt, now), decidedBy := Coalesce(row.decidedBy, "system"),
           note := Coalesce(row.note, "approval request expired"))
  }

  function LapseAll(rows: seq<Row>, now: int): (r: seq<Row>)
    ensures |r| == |rows| && forall i :: 0 <= i < |rows| ==> r[i] == Lapse(rows[i], now)
  {
    seq(|rows|, i requires 0 <= i < |rows| => Lapse(rows[i], now))
  }

  // expire(): close an abandoned wait.
  function ExpireWait(rows: seq<Row>, id: string, taskId: string, now: int): seq<Row> {
    var k := FindId(rows, id);
    if k.None? || rows[k.value].content.taskId != taskId || rows[k.value].status != Pending then rows
    else
      rows[k.value := rows[k.value].(
        status := Expired, decidedAt := Some(now), decidedBy := Some("system"), note := Some("approval wait ended"))]
  }

  datatype Decision = Decision(requestId: string, approve: bool, actor: string, note: Option<string>)

  function Verdict(d: Decision): Status { if d.approve then Approved else Denied }

  // The transaction of submit_decision().
  function Decide(rows: seq<Row>, d: Decision, now: int): (seq<Row>, Result<Row, ()>) {
    var k := FindId(rows, d.requestId);
    if k.None? then (rows, Err(()))
    else
      var row := rows[k.value];
      if row.status in {Approved, Denied} then (rows, if row.status == Verdict(d) then Ok(row) else Err(()))
      else if row.status != Pending then (rows, Err(()))
      else
        var decided := row.(status := Verdict(d), decidedAt := Some(now), decidedBy := Some(d.actor), note := d.note);
        (rows[k.value := decided], Ok(decided))
  }

  // ---------------------------------------------------------------- what every operation keeps

  // Pending rows are undecided, all others carry who decided and when.
  predicate RowGood(row: Row) {
    (row.status == Pending <==> row.decidedAt.None?) && (row.decidedAt.Some? <==> row.decidedBy.Some?)
  }

  ghost predicate TableGood(rows: seq<Row>) {
    && (forall i :: 0 <= i < |rows| ==> RowGood(rows[i]))
    && (forall i, j :: 0 <= i < j < |rows| ==>
          rows[i].id != rows[j].id
          && (rows[i].content.taskId != rows[j].content.taskId
              || rows[i].content.fingerprint != rows[j].content.fingerprint))
  }

  predicate Moves(a: Status, b: Status) { a == b || a == Pending || (a == Approved && b == Expired) }

  // One row over time: content never changes, status only moves forward, a decision is never rewritten.
  predicate Evolves(a: Row, b: Row) {
    && a.id == b.id && a.content == b.content && a.requestedAt == b.requestedAt && Moves(a.status, b.status)
    && (a.decidedAt.Some? ==> b.decidedAt == a.decidedAt && b.decidedBy == a.decidedBy)
  }

  ghost predicate TableEvolves(rows: seq<Row>, rows': seq<Row>) {
    |rows| <= |rows'| && forall i :: 0 <= i < |rows| ==> Evolves(rows[i], rows'[i])
  }

  datatype Op =
    | Asking(s: Submission, id: string, now: int)
    | Lapsing(now: int)
    | Closing(id: string, taskId: string, now: int)
    | Deciding(d: Decision, now: int)

  function Perform(rows: seq<Row>, op: Op): seq<Row> {
    match op
    case Asking(s, id, now) => Ask(rows, s, id, now).0
    case Lapsing(now) => LapseAll(rows, now)
    case Closing(id, taskId, now) => ExpireWait(rows, id, taskId, now)
    case Deciding(d, now) => Decide(rows, d, now).0
  }

  // A fresh uuid for every new row.
  predicate FreshIds(rows: seq<Row>, op: Op) { op.Asking? ==> FindId(rows, op.id).None? }

  // Rewriting one row forward keeps the table.
  lemma RewriteKeeps(rows: seq<Row>, k: nat, row: Row)
    requires TableGood(rows) && k < |rows| && RowGood(row) && Evolves(rows[k], row)
    ensures TableGood(rows[k := row]) && TableEvolves(rows, rows[k := row])
  {
  }

  lemma LapseKeeps(rows: seq<Row>, now: int)
    requires TableGood(rows)
    ensures TableGood(LapseAll(rows, now)) && TableEvolves(rows, LapseAll(rows, now))
  {
  }

  lemma AskKeeps(rows: seq<Row>, s: Submission, id: string, now: int)
    requires TableGood(rows) && FindId(rows, id).None?
    ensures TableGood(Ask(rows, s, id, now).0) && TableEvolves(rows, Ask(rows, s, id, now).0)
  {
    assert forall i :: 0 <= i < |rows| ==> rows[i] in rows;
  }

  lemma OpKeeps(rows: seq<Row>, op: Op)
    requires TableGood(rows) && FreshIds(rows, op)
    ensures TableGood(Perform(rows, op)) && TableEvolves(rows, Perform(rows, op))
  {
    match op {
      case Asking(s, id, now) => AskKeeps(rows, s, id, now);
      case Lapsing(now) => LapseKeeps(rows, now);
      case Closing(id, taskId, now) =>
        var k := FindId(rows, id);
        if k.Some? && Perform(rows, op) != rows {
          RewriteKeeps(rows, k.value, Perform(rows, op)[k.value]);
        }
      case Deciding(d, now) =>
        var k := FindId(rows, d.requestId);
        if k.Some? && Perform(rows, op) != rows {
          RewriteKeeps(rows, k.value, Perform(rows, op)[k.value]);
        }
    }
  }

  lemma {:induction false} EveryHistoryKeeps(rows: seq<Row>, ops: seq<Op>)
    requires TableGood(rows) && FreshHistory(rows, ops)
    ensures TableGood(PerformAll(rows, ops)) && TableEvolves(rows, PerformAll(rows, ops))
    decreases ops
  {
    if ops != [] {
      OpKeeps(rows, ops[0]);
      EveryHistoryKeeps(Perform(rows, ops[0]), ops[1..]);
    }
  }

  function PerformAll(rows: seq<Row>, ops: seq<Op>): seq<Row>
    decreases ops
  {
    if ops == [] then rows else PerformAll(Perform(rows, ops[0]), ops[1..])
  }

  ghost predicate FreshHistory(rows: seq<Row>, ops: seq<Op>)
    decreases ops
  {
    ops == [] || (FreshIds(rows, ops[0]) && FreshHistory(Perform(rows, ops[0]), ops[1..]))
  }

  // A decision takes exactly when the row is pending or already says the same.
  lemma DecisionTakesIff(rows: seq<Row>, d: Decision, now: int)
    requires TableGood(rows)
    ensures Decide(rows, d, now).1.Ok?
            <==> exists i :: 0 <= i < |rows| && rows[i].id == d.requestId && rows[i].status in {Pending, Verdict(d)}
    ensures Decide(rows, d, now).1.Ok? ==>
      Decide(rows, d, now).1.value.status == Verdict(d) && Decide(rows, d, now).1.value in Decide(rows, d, now).0
  {
    var k := FindId(rows, d.requestId);
    if k.Some? {
      assert forall i :: 0 <= i < |rows| && rows[i].id == d.requestId ==> i == k.value;
      assert Decide(rows, d, now).0[k.value] in Decide(rows, d, now).0;
    } else {
      assert forall i :: 0 <= i < |rows| ==> rows[i] in rows;
    }
  }

  // ---------------------------------------------------------------- what each operation answers

  // The deadline of the row has come.
  ghost predicate Past(row: Row, now: int) {
    match row.content.expiresAt
    case None => false
    case Some(deadline) => deadline <= now
  }

  ghost predicate Live(row: Row) { row.status == Pending || row.status == Approved }

  // Expiry closes the live rows whose deadline has come, approved ones included, and touches no other; who had decided
  // stays on record.
  lemma LapseClosesIff(rows: seq<Row>, now: int, i: nat)
    requires i < |rows|
    ensures var row := LapseAll(rows, now)[i];
            && (Live(row) <==> Live(rows[i]) && !Past(rows[i], now)) && (row == rows[i] || row.status == Expired)
            && (!(Live(rows[i]) && Past(rows[i], now)) ==> row == rows[i])
            && row.(status := rows[i].status, decidedAt := rows[i].decidedAt, decidedBy := rows[i].decidedBy,
                    note := rows[i].note) == rows[i]
            && (row != rows[i] ==>
                  && row.decidedAt == (if rows[i].decidedAt.Some? then rows[i].decidedAt else Some(now))
                  && row.decidedBy == (if rows[i].decidedBy.Some? then rows[i].decidedBy else Some("system"))
                  && row.note == (if rows[i].note.Some? then rows[i].note else Some("approval request expired")))
  {
  }

  // The row of this task and command, if it was asked for.
  ghost predicate For(row: Row, s: Submission) {
    row.content.taskId == s.taskId && row.content.fingerprint == s.fingerprint
  }

  // What a request answers: the row already there, if it asks for the same in every respect, and otherwise a refusal; a
  // new pending row when there is none.
  lemma AskAnswers(rows: seq<Row>, s: Submission, id: string, now: int)
    requires TableGood(rows)
    ensures var (rows', r) := Ask(rows, s, id, now);
            if exists row :: row in rows && For(row, s)
            then rows' == rows && (forall row :: row in rows && For(row, s) ==>
                                     if row.content == s then r == Ok(row) else r.Err?)
            else r.Ok? && rows' == rows + [r.value] && r.value.id == id && r.value.content == s
                 && r.value.status == Pending && r.value.decidedBy.None? && r.value.requestedAt == now
  {
    var known := FindFingerprint(rows, s.taskId, s.fingerprint);
    if known.Some? {
      forall row | row in rows && For(row, s) ensures row == rows[known.value] {
        var i :| 0 <= i < |rows| && rows[i] == row;
        assert i == known.value;
      }
      assert rows[known.value] in rows && For(rows[known.value], s);
    }
  }

  // A request repeated at any later time answers with the same row, however far that has come.
  lemma RetriedAsk(rows: seq<Row>, s: Submission, id: string, now: int, later: seq<Row>, id': string, now': int)
    requires TableGood(rows) && TableGood(later) && Ask(rows, s, id, now).1.Ok?
    requires TableEvolves(Ask(rows, s, id, now).0, later)
    ensures var row := Ask(rows, s, id, now).1.value;
            exists row' :: Evolves(row, row') && row' in later && Ask(later, s, id', now') == (later, Ok(row'))
  {
    var (rows', r) := Ask(rows, s, id, now);
    var k :| 0 <= k < |rows'| && rows'[k] == r.value;
    assert Evolves(rows'[k], later[k]) && later[k] in later && For(later[k], s) && r.value.content == s;
    AskAnswers(later, s, id', now');
  }

  ghost predicate Decides(row: Row, d: Decision) {
    row.id == d.requestId && (row.status == Pending || row.status == if d.approve then Approved else Denied)
  }

  // A decision made at `now` and written at `later`: it takes exactly on a row that is pending or says the same, and
  // whose deadline has not come if it is live. It then stands in the row, under the name of who made it first.
  lemma DecisionAnswers(rows: seq<Row>, d: Decision, now: int, later: int)
    requires TableGood(rows)
    ensures var (rows', r) := Decide(LapseAll(rows, now), d, later);
            && (r.Ok? <==> exists row :: row in rows && Decides(row, d) && (Live(row) ==> !Past(row, now)))
            && (r.Ok? ==> r.value in rows' && r.value.id == d.requestId
                          && r.value.status == if d.approve then Approved else Denied)
            && |rows'| == |rows|
            && (forall i :: 0 <= i < |rows| && rows[i].id != d.requestId ==> rows'[i] == LapseAll(rows, now)[i])
            && (forall i :: 0 <= i < |rows| && rows[i].id == d.requestId && rows[i].status == Pending && r.Ok? ==>
                  rows'[i] == rows[i].(status := r.value.status, decidedAt := Some(later), decidedBy := Some(d.actor),
                                       note := d.note))
  {
    var lapsed := LapseAll(rows, now);
    var k := FindId(lapsed, d.requestId);
    forall i | 0 <= i < |rows| ensures lapsed[i].id == rows[i].id && lapsed[i] in lapsed && rows[i] in rows {
      LapseClosesIff(rows, now, i);
    }
    if k.Some? {
      LapseClosesIff(rows, now, k.value);
      assert forall i :: 0 <= i < |rows| && rows[i].id == d.requestId ==> i == k.value;
      assert Decide(lapsed, d, later).0[k.value] in Decide(lapsed, d, later).0;
      assert forall row :: row in rows && row.id == d.requestId ==> row == rows[k.value];
    } else {
      assert forall row :: row in rows ==> row.id != d.requestId;
    }
  }

  lemma ApprovedIff(rows: seq<Row>, taskId: string, fingerprint: string, now: int)
    requires TableGood(rows)
    ensures var lapsed := LapseAll(rows, now);
            var k := FindFingerprint(lapsed, taskId, fingerprint);
            (k.Some? && lapsed[k.value].status == Approved)
            <==> exists row :: row in rows && row.content.taskId == taskId && row.content.fingerprint == fingerprint
                               && row.status == Approved && !Past(row, now)
  {
    var lapsed := LapseAll(rows, now);
    var k := FindFingerprint(lapsed, taskId, fingerprint);
    forall i | 0 <= i < |rows|
      ensures lapsed[i] in lapsed && rows[i] in rows && lapsed[i].content == rows[i].content
      ensures lapsed[i].status == Approved <==> rows[i].status == Approved && !Past(rows[i], now)
    {
      LapseClosesIff(rows, now, i);
    }
    if k.Some? {
      forall i | 0 <= i < |rows| && rows[i].content.taskId == taskId && rows[i].content.fingerprint == fingerprint
        ensures i == k.value
      {
      }
    }
  }

  // An abandoned wait closes its own row, and only while that is pending: a decision made in between stands.
  lemma ExpireWaitClosesIff(rows: seq<Row>, id: string, taskId: string, now: int, i: nat)
    requires TableGood(rows) && i < |rows|
    ensures var rows' := ExpireWait(rows, id, taskId, now);
            && |rows'| == |rows|
            && if rows[i].id == id && rows[i].content.taskId == taskId && rows[i].status == Pending
               then rows'[i] == rows[i].(status := Expired, decidedAt := Some(now), decidedBy := Some("system"),
                                         note := Some("approval wait ended"))
               else rows'[i] == rows[i]
  {
    assert rows[i] in rows;
  }

  class ApprovalStore {
    var rows: seq<Row>

    constructor ()
      ensures rows == []
    {
      rows := [];
    }

    method Request(s: Submission, id: string, now: int) returns (out: Result<Row, ()>)
      modifies this
      ensures (rows, out) == Ask(old(rows), s, id, now)
    {
      if FindFingerprint(rows, s.taskId, s.fingerprint).None? {
        rows := rows + [Row(id, s, Pending, now, None, None, None)];
        assert rows[|rows| - 1].content == s;
        return Ok(rows[|rows| - 1]);
      }
      var persisted := rows[FindFingerprint(rows, s.taskId, s.fingerprint).value];
      out := if SameRequest(persisted.content, s) then Ok(persisted) else Err(());
    }

    method ExpireDue(now: int) returns (count: nat)
      modifies this
      ensures rows == LapseAll(old(rows), now)
      ensures count == |set i | 0 <= i < |old(rows)| && Due(old(rows)[i], now)|
    {
      count := |set i | 0 <= i < |rows| && Due(rows[i], now)|;
      rows := LapseAll(rows, now);
    }

    // get(): no row is read as pending or approved after its expiry.
    method Get(id: string, now: int) returns (out: Option<Row>)
      modifies this
      ensures rows == LapseAll(old(rows), now)
      ensures out == if FindId(rows, id).Some? then Some(rows[FindId(rows, id).value]) else None
      ensures out.Some? && Past(out.value, now) ==> out.value.status != Pending && out.value.status != Approved
    {
      var expired := ExpireDue(now);
      var k := FindId(rows, id);
      out := if k.Some? then Some(rows[k.value]) else None;
    }

    // is_approved(): the row of this task and command after expiry.
    method IsApproved(taskId: string, fingerprint: string, now: int) returns (approved: bool)
      requires TableGood(rows)
      modifies this
      ensures rows == LapseAll(old(rows), now)
      ensures approved <==>
        exists row :: row in old(rows) && row.content.taskId == taskId && row.content.fingerprint == fingerprint
                      && row.status == Approved && !Past(row, now)
    {
      ghost var before := rows;
      var expired := ExpireDue(now);
      LapseKeeps(before, now);
      var k := FindFingerprint(rows, taskId, fingerprint);
      approved := k.Some? && rows[k.value].status == Approved;
      ApprovedIff(before, taskId, fingerprint, now);
    }

    // expire(): close an abandoned wait, then read the row back, which expires what is due.
    method Expire(id: string, taskId: string, now: int, later: int) returns (changed: Option<Row>)
      modifies this
      ensures rows == LapseAll(ExpireWait(old(rows), id, taskId, now), later)
      ensures changed == if FindId(rows, id).Some? then Some(rows[FindId(rows, id).value]) else None
    {
      var k := FindId(rows, id);
      if k.Some? && rows[k.value].content.taskId == taskId && rows[k.value].status == Pending {
        rows := rows[k.value := rows[k.value].(
          status := Expired, decidedAt := Some(now), decidedBy := Some("system"), note := Some("approval wait ended"))];
      }
      changed := Get(id, later);
    }

    method SubmitDecision(d: Decision, now: int, later: int) returns (out: Result<Row, ()>)
      modifies this
      ensures (rows, out) == Decide(LapseAll(old(rows), now), d, later)
    {
      var expired := ExpireDue(now);
      var k := FindId(rows, d.requestId);
      if k.None? {
        return Err(());
      }
      var row := rows[k.value];
      if row.status in {Approved, Denied} {
        return if row.status == Verdict(d) then Ok(row) else Err(());
      }
      if row.status != Pending {
        return Err(());
      }
      row := row.(status := Verdict(d), decidedAt := Some(later), decidedBy := Some(d.actor), note := d.note);
      rows := rows[k.value := row];
      out := Ok(row);
    }
  }
}
