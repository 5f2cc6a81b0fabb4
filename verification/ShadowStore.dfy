// harness/state/event_store.py and harness/ledger/shadow.py: the per-task event stream, and the ledger-backed store
// that must read the same.
module ShadowStore {
  import opened Wrappers
  import L = Ledger

  datatype HarnessEvent = HarnessEvent(
    eventId: string, taskId: string, sequence: nat, kind: string, payload: string, timestamp: int, key: Option<string>)

  // `id` and `now` are the fresh uuid and the clock.
  datatype Request = Request(taskId: string, kind: string, payload: string, key: Option<string>, id: string, now: int)

  const SOURCE := "harness_event"
  const PREFIX := "harness:"
  const READ_LIMIT := 100_000

  // ---------------------------------------------------------------- JsonlEventStore

  function FindKey(stream: seq<HarnessEvent>, key: string): (r: Option<nat>)
    ensures r.Some? ==> r.value < |stream| && stream[r.value].key == Some(key)
    ensures r.None? ==> forall e :: e in stream ==> e.key != Some(key)
  {
    if stream == [] then None
    else if stream[0].key == Some(key) then Some(0)
    else
      var rest := FindKey(stream[1..], key);
      if rest.None? then None else Some(rest.value + 1)
  }

  function Created(stream: seq<HarnessEvent>, r: Request): HarnessEvent {
    HarnessEvent(r.id, r.taskId, if stream == [] then 1 else stream[|stream| - 1].sequence + 1,
                 r.kind, r.payload, r.now, r.key)
  }

  // The event's line is read back as one line.
  predicate WholeEvent(e: HarnessEvent) {
    && L.OneLine(e.eventId) && L.OneLine(e.taskId) && L.OneLine(e.kind) && L.OneLine(e.payload) && L.OneLineOr(e.key)
  }

  predicate WholeRequest(r: Request) {
    && L.OneLine(r.id) && L.OneLine(r.taskId) && L.OneLine(r.kind) && L.OneLine(r.payload) && L.OneLineOr(r.key)
  }

  // Reading a task parses every line of its file.
  predicate Legible(stream: seq<HarnessEvent>) { forall e :: e in stream ==> WholeEvent(e) }

  function StreamRead(stream: seq<HarnessEvent>, after: int): Result<seq<HarnessEvent>, ()> {
    if Legible(stream) then Ok(After(stream, after)) else Err(())
  }

  function StreamAppend(stream: seq<HarnessEvent>, r: Request): (seq<HarnessEvent>, Result<HarnessEvent, ()>) {
    if Legible(stream) then KeyedAppend(stream, r) else (stream, Err(()))
  }

  function KeyedAppend(stream: seq<HarnessEvent>, r: Request): (seq<HarnessEvent>, Result<HarnessEvent, ()>) {
    var found := if r.key.Some? then FindKey(stream, r.key.value) else None;
    if found.Some? then
      var e := stream[found.value];
      (stream, if e.kind == r.kind && e.payload == r.payload then Ok(e) else Err(()))
    else (stream + [Created(stream, r)], Ok(Created(stream, r)))
  }

  function After(events: seq<HarnessEvent>, sequence: int): seq<HarnessEvent> {
    if events == [] then []
    else
      var last := events[|events| - 1];
      After(events[..|events| - 1], sequence) + (if last.sequence > sequence then [last] else [])
  }

  // Counted up from one, no key twice.
  ghost predicate Orderly(stream: seq<HarnessEvent>) {
    && (forall i :: 0 <= i < |stream| ==> stream[i].sequence == i + 1)
    && forall i, j :: 0 <= i < j < |stream| && stream[i].key.Some? ==> stream[i].key != stream[j].key
  }

  // What an append to a task's stream answers: the event stored under the request's key, if that says the same, and
  // else a conflict; a new event at the end when there is none.
  lemma StreamAppendAnswers(stream: seq<HarnessEvent>, r: Request)
    requires Orderly(stream)
    ensures var (stream', out) := StreamAppend(stream, r);
            if !Legible(stream) then stream' == stream && out.Err?
            else if r.key.Some? && exists e :: e in stream && e.key == r.key
            then stream' == stream && forall e :: e in stream && e.key == r.key ==>
                   if e.kind == r.kind && e.payload == r.payload then out == Ok(e) else out.Err?
            else out.Ok? && stream' == stream + [out.value]
                 && out.value == HarnessEvent(r.id, r.taskId, |stream| + 1, r.kind, r.payload, r.now, r.key)
    ensures Orderly(StreamAppend(stream, r).0)
  {
    if Legible(stream) && r.key.Some? {
      var found := FindKey(stream, r.key.value);
      if found.Some? {
        forall e | e in stream && e.key == r.key ensures e == stream[found.value] {
          var i :| 0 <= i < |stream| && stream[i] == e;
        }
      }
    }
  }

  // Reading from a cursor skips exactly the events up to it.
  lemma {:induction false} AfterIs(stream: seq<HarnessEvent>, sequence: int)
    requires Orderly(stream)
    ensures After(stream, sequence) == stream[Min(Max(sequence, 0), |stream|)..]
  {
    if stream != [] {
      var n, k := |stream| - 1, Min(Max(sequence, 0), |stream|);
      AfterIs(stream[..n], sequence);
      if k <= n {
        assert stream[k..] == stream[..n][k..] + [stream[n]];
      } else {
        assert stream[..n][n..] == [] && stream[k..] == [];
      }
    }
  }

  // ---------------------------------------------------------------- importers

  function ImportKey(e: HarnessEvent): string {
    PREFIX + (if e.key.Some? then e.key.value else e.eventId)
  }

  function ImportRequest(e: HarnessEvent): L.Request {
    L.Request(e.taskId, L.Content(SOURCE, e.eventId, e.kind, "observed", "none", e.payload),
              L.Stamp(e.timestamp, e.timestamp, None, None), Some(ImportKey(e)))
  }

  // The other importers of harness/ledger/importers.py name their keys with prefixes of their own.
  datatype Importer = Trace | Receipt | Checkpoint | Approval | Steering | Metric | PublicRun | PublicEvent | AdkSession

  function KeyPrefix(i: Importer): string {
    match i
    case Trace => "trace:"
    case Receipt => "receipt:"
    case Checkpoint => "checkpoint:"
    case Approval => "approval:"
    case Steering => "steering:"
    case Metric => "metric:"
    case PublicRun => "run:"
    case PublicEvent => "public:"
    case AdkSession => "adk-session:"
  }

  lemma OtherKeysAreForeign(i: Importer, rest: string)
    ensures !(PREFIX <= KeyPrefix(i) + rest)
  {
    var key := KeyPrefix(i) + rest;
    assert key[0] == KeyPrefix(i)[0];
    assert PREFIX[0] == 'h' && KeyPrefix(i)[0] != 'h';
  }

  // ---------------------------------------------------------------- LedgerBackedEventStore

  datatype Shadow = Shadow(streams: map<string, seq<HarnessEvent>>, file: seq<L.Event>)

  function Stream(s: Shadow, task: string): seq<HarnessEvent> {
    if task in s.streams then s.streams[task] else []
  }

  function HarnessRows(log: seq<L.Event>): seq<L.Event> {
    if log == [] then []
    else
      var last := log[|log| - 1];
      HarnessRows(log[..|log| - 1]) + (if last.content.source == SOURCE then [last] else [])
  }

  function Decode(row: L.Event, sequence: nat): HarnessEvent {
    HarnessEvent(row.content.sourceId, row.taskId, sequence, row.content.kind, row.content.payload,
                 row.stamp.observedAt,
                 if row.key == PREFIX + row.content.sourceId then None
                 else if PREFIX <= row.key then Some(row.key[|PREFIX|..]) else Some(row.key))
  }

  function DecodeAll(rows: seq<L.Event>): seq<HarnessEvent> {
    seq(|rows|, i requires 0 <= i < |rows| => Decode(rows[i], i + 1))
  }

  // Read-repair: every operational event is imported, in order; an import that raises stops the read.
  function Repair(file: seq<L.Event>, events: seq<HarnessEvent>): (seq<L.Event>, bool) {
    if events == [] then (file, true)
    else
      var (file', ok) := Repair(file, events[..|events| - 1]);
      if !ok then (file', false)
      else
        var (file'', r) := L.FileAppend(file', ImportRequest(events[|events| - 1]));
        (file'', r.Ok?)
  }

  function Query(task: string): L.Query { L.Query(task, 0, {}, READ_LIMIT) }

  function ShadowRead(s: Shadow, task: string, after: int): (Shadow, Result<seq<HarnessEvent>, ()>) {
    if !Legible(Stream(s, task)) then (s, Err(()))
    else
      var (file, ok) := Repair(s.file, Stream(s, task));
      var rows := L.FileRead(file, Query(task));
      (s.(file := file),
       if ok && rows.Ok? then Ok(After(DecodeAll(HarnessRows(rows.value)), after)) else Err(()))
  }

  function WithStream(s: Shadow, task: string, stream: seq<HarnessEvent>): Shadow {
    s.(streams := s.streams[task := stream])
  }

  // The operational write, then (unless the process dies in between) the ledger write.
  function ShadowAppend(s: Shadow, r: Request, crash: bool): (Shadow, Result<HarnessEvent, ()>) {
    var (stream, result) := StreamAppend(Stream(s, r.taskId), r);
    var s1 := WithStream(s, r.taskId, stream);
    if result.Err? || crash then (s1, Err(()))
    else
      var (file, imported) := L.FileAppend(s.file, ImportRequest(result.value));
      (s1.(file := file), if imported.Ok? then result else Err(()))
  }

  // Equal answers, equal ledgers, and the same stream for every task.
  ghost predicate SameState(a: (Shadow, Result<HarnessEvent, ()>), b: (Shadow, Result<HarnessEvent, ()>)) {
    a.1 == b.1 && a.0.file == b.0.file && forall t :: Stream(a.0, t) == Stream(b.0, t)
  }

  // ---------------------------------------------------------------- assumptions on ids and keys

  predicate IsImportOf(row: L.Event, e: HarnessEvent) {
    row.taskId == e.taskId && row.key == ImportKey(e)
    && row.content == ImportRequest(e).content && row.stamp == ImportRequest(e).stamp
  }

  ghost predicate CleanStreams(s: Shadow) {
    && (forall t: string, i: nat :: i < |Stream(s, t)| ==>
          Stream(s, t)[i].taskId == t && Stream(s, t)[i].sequence == i + 1)
    && (forall t: string, u: string, i: nat, j: nat ::
          (i < |Stream(s, t)| && j < |Stream(s, u)| && Stream(s, t)[i].eventId == Stream(s, u)[j].eventId)
          ==> t == u && i == j)
    && (forall t: string, i: nat, j: nat :: i < j < |Stream(s, t)| && Stream(s, t)[i].key.Some?
          ==> Stream(s, t)[i].key != Stream(s, t)[j].key)
    && (forall t: string, i: nat, j: nat :: i < |Stream(s, t)| && j < |Stream(s, t)|
          ==> Stream(s, t)[i].key != Some(Stream(s, t)[j].eventId))
  }

  // Harness rows are imports of operational events; nothing else uses the harness key prefix.
  ghost predicate CleanFile(s: Shadow, file: seq<L.Event>) {
    && L.GoodFile(file)
    && (forall row :: row in file && row.content.source == SOURCE ==>
          exists i :: 0 <= i < |Stream(s, row.taskId)| && IsImportOf(row, Stream(s, row.taskId)[i]))
    && (forall row :: row in file && row.content.source != SOURCE ==> !(PREFIX <= row.key))
  }

  ghost predicate Clean(s: Shadow) { CleanStreams(s) && CleanFile(s, s.file) }

  // ---------------------------------------------------------------- one import

  lemma ImportKeyInjective(s: Shadow, t: string, i: nat, j: nat)
    requires CleanStreams(s) && i < |Stream(s, t)| && j < |Stream(s, t)|
    requires ImportKey(Stream(s, t)[i]) == ImportKey(Stream(s, t)[j])
    ensures i == j
  {
    var a, b := Stream(s, t)[i], Stream(s, t)[j];
    assert ImportKey(a)[|PREFIX|..] == ImportKey(b)[|PREFIX|..];
    assert ImportKey(a)[|PREFIX|..] == if a.key.Some? then a.key.value else a.eventId;
    assert ImportKey(b)[|PREFIX|..] == if b.key.Some? then b.key.value else b.eventId;
  }

  predicate Holds(file: seq<L.Event>, e: HarnessEvent) {
    exists row :: row in file && IsImportOf(row, e)
  }

  lemma OneLineConcat(a: string, b: string)
    ensures L.OneLine(a + b) <==> L.OneLine(a) && L.OneLine(b)
  {
    assert forall c :: c in a + b <==> c in a || c in b;
  }

  // The row of an event is whole exactly when the event is.
  lemma ImportIsWhole(e: HarnessEvent)
    ensures L.KeyOf(ImportRequest(e)) == ImportKey(e)
    ensures L.WholeRequest(ImportRequest(e)) <==> WholeEvent(e)
  {
    assert |ImportKey(e)| >= |PREFIX| > 0;
    OneLineConcat(PREFIX, if e.key.Some? then e.key.value else e.eventId);
    assert L.OneLine(PREFIX) && L.OneLine(SOURCE) && L.OneLine("observed") && L.OneLine("none");
  }

  // A row that clashes with the import of an event is that import.
  lemma ClashIsImport(s: Shadow, file: seq<L.Event>, t: string, i: nat, row: L.Event)
    requires CleanStreams(s) && CleanFile(s, file) && i < |Stream(s, t)| && row in file
    requires var r := ImportRequest(Stream(s, t)[i]);
             L.KeyOf(r) == ImportKey(Stream(s, t)[i]) && (L.SameKey(row, r) || L.SameSource(row, r))
    ensures IsImportOf(row, Stream(s, t)[i])
  {
    assert PREFIX <= ImportKey(Stream(s, t)[i]);
    assert row.content.source == SOURCE;
    var j :| 0 <= j < |Stream(s, row.taskId)| && IsImportOf(row, Stream(s, row.taskId)[j]);
    if L.SameKey(row, ImportRequest(Stream(s, t)[i])) {
      ImportKeyInjective(s, t, i, j);
    }
  }

  lemma ScanImports(s: Shadow, file: seq<L.Event>, t: string, i: nat)
    requires CleanStreams(s) && CleanFile(s, file) && i < |Stream(s, t)|
    ensures var e := Stream(s, t)[i];
            var (file', r) := L.ScanAppend(file, ImportRequest(e));
            && r.Ok? && CleanFile(s, file')
            && (if Holds(file, e) then file' == file
                else file' == file + [r.value] && IsImportOf(r.value, e))
  {
    var e := Stream(s, t)[i];
    var r := ImportRequest(e);
    ImportIsWhole(e);
    L.ScanNone(file, r);
    L.AppendKeeps(file, r);
    forall row | row in file && (L.SameKey(row, r) || L.SameSource(row, r)) ensures IsImportOf(row, e) {
      ClashIsImport(s, file, t, i, row);
    }
    if Holds(file, e) {
      var row :| row in file && IsImportOf(row, e);
      L.ScanVerdict(file, r, row);
    } else {
      assert L.Scan(file, r).None?;
    }
  }

  // Importing an operational event raises exactly on a ledger file that does not parse; otherwise the event is already
  // there, or becomes the task's next row, and the file then parses exactly if the event holds no separator.
  lemma ImportWorks(s: Shadow, file: seq<L.Event>, t: string, i: nat)
    requires CleanStreams(s) && CleanFile(s, file) && i < |Stream(s, t)|
    ensures var e := Stream(s, t)[i];
            var (file', r) := L.FileAppend(file, ImportRequest(e));
            && (r.Ok? <==> L.Parses(file)) && CleanFile(s, file')
            && (if !L.Parses(file) || Holds(file, e) then file' == file
                else file' == file + [r.value] && IsImportOf(r.value, e))
            && (L.Parses(file') <==> L.Parses(file) && (Holds(file, e) || WholeEvent(e)))
  {
    ScanImports(s, file, t, i);
    ImportIsWhole(Stream(s, t)[i]);
    L.AppendParsesIff(file, ImportRequest(Stream(s, t)[i]));
  }

  // ---------------------------------------------------------------- repair

  function Ids(events: seq<HarnessEvent>): seq<string> {
    seq(|events|, i requires 0 <= i < |events| => events[i].eventId)
  }

  function RowIds(rows: seq<L.Event>): seq<string> {
    seq(|rows|, i requires 0 <= i < |rows| => rows[i].content.sourceId)
  }

  // The ids under which the ledger holds this task's events, in ledger order.
  function HeldIds(file: seq<L.Event>, task: string): seq<string> {
    RowIds(HarnessRows(L.TaskLog(file, task)))
  }

  function Missing(ids: seq<string>, held: seq<string>): seq<string> {
    if ids == [] then []
    else
      var last := ids[|ids| - 1];
      Missing(ids[..|ids| - 1], held) + (if last in held then [] else [last])
  }

  lemma {:induction false} HarnessRowsMembers(log: seq<L.Event>)
    ensures forall row :: row in HarnessRows(log) <==> row in log && row.content.source == SOURCE
  {
    if log != [] {
      HarnessRowsMembers(log[..|log| - 1]);
      assert log == log[..|log| - 1] + [log[|log| - 1]];
    }
  }

  lemma HeldIdsSnoc(file: seq<L.Event>, row: L.Event, task: string)
    ensures HeldIds(file + [row], task)
            == HeldIds(file, task)
               + (if row.taskId == task && row.content.source == SOURCE then [row.content.sourceId] else [])
  {
    L.TaskLogSnoc(file, row, task);
    var log := L.TaskLog(file, task);
    assert (log + [row])[..|log|] == log && log + [] == log;
    var rows := HarnessRows(log);
    assert rows + [] == rows && RowIds(rows) + [] == RowIds(rows);
    assert RowIds(rows + [row]) == RowIds(rows) + [row.content.sourceId];
  }

  lemma HeldWhenHolds(file: seq<L.Event>, t: string, e: HarnessEvent)
    requires Holds(file, e) && e.taskId == t
    ensures e.eventId in HeldIds(file, t)
  {
    var row :| row in file && IsImportOf(row, e);
    var rows := HarnessRows(L.TaskLog(file, t));
    L.TaskLogMembers(file, t);
    HarnessRowsMembers(L.TaskLog(file, t));
    var k :| 0 <= k < |rows| && rows[k] == row;
    assert RowIds(rows)[k] == e.eventId;
  }

  lemma HoldsWhenHeld(s: Shadow, file: seq<L.Event>, t: string, i: nat)
    requires CleanStreams(s) && CleanFile(s, file) && i < |Stream(s, t)| && Stream(s, t)[i].eventId in HeldIds(file, t)
    ensures Holds(file, Stream(s, t)[i])
  {
    var rows := HarnessRows(L.TaskLog(file, t));
    L.TaskLogMembers(file, t);
    HarnessRowsMembers(L.TaskLog(file, t));
    var k :| 0 <= k < |rows| && RowIds(rows)[k] == Stream(s, t)[i].eventId;
    var row := rows[k];
    assert row in rows;
    var j :| 0 <= j < |Stream(s, t)| && IsImportOf(row, Stream(s, t)[j]);
    assert j == i;
  }

  lemma HoldsIsHeld(s: Shadow, file: seq<L.Event>, t: string, i: nat)
    requires CleanStreams(s) && CleanFile(s, file) && i < |Stream(s, t)|
    ensures Holds(file, Stream(s, t)[i]) <==> Stream(s, t)[i].eventId in HeldIds(file, t)
  {
    if Holds(file, Stream(s, t)[i]) {
      HeldWhenHolds(file, t, Stream(s, t)[i]);
    }
    if Stream(s, t)[i].eventId in HeldIds(file, t) {
      HoldsWhenHeld(s, file, t, i);
    }
  }

  // The ledger after importing some events of a stream: theirs are appended, no other task moves.
  ghost predicate Repaired(s: Shadow, t: string, next: (seq<L.Event>, bool), ids: seq<string>) {
    && next.1 && CleanFile(s, next.0) && L.Parses(next.0)
    && HeldIds(next.0, t) == HeldIds(s.file, t) + Missing(ids, HeldIds(s.file, t))
    && forall u :: u != t ==> HeldIds(next.0, u) == HeldIds(s.file, u)
  }

  // One import: the id joins its task's held ids unless it was there.
  lemma ImportHeld(s: Shadow, t: string, file: seq<L.Event>, n: nat, u: string)
    requires CleanStreams(s) && CleanFile(s, file) && n < |Stream(s, t)| && L.Parses(file)
    ensures var id := Stream(s, t)[n].eventId;
            var file' := L.FileAppend(file, ImportRequest(Stream(s, t)[n])).0;
            HeldIds(file', u) == HeldIds(file, u) + (if u == t && id !in HeldIds(file, t) then [id] else [])
  {
    var e := Stream(s, t)[n];
    ImportWorks(s, file, t, n);
    HoldsIsHeld(s, file, t, n);
    if Holds(file, e) {
      assert HeldIds(file, u) + [] == HeldIds(file, u);
    } else {
      HeldIdsSnoc(file, L.FileAppend(file, ImportRequest(e)).1.value, u);
    }
  }

  lemma MissingSnoc(ids: seq<string>, id: string, held: seq<string>)
    requires id !in ids
    ensures Missing(ids + [id], held) == Missing(ids, held) + (if id in held then [] else [id])
    ensures id in held + Missing(ids, held) <==> id in held
  {
    assert (ids + [id])[..|ids|] == ids;
    MissingMembers(ids, held);
  }

  lemma RepairOne(s: Shadow, t: string, file: seq<L.Event>, ids: seq<string>, n: nat)
    requires CleanStreams(s) && Repaired(s, t, (file, true), ids)
    requires n < |Stream(s, t)| && Stream(s, t)[n].eventId !in ids && WholeEvent(Stream(s, t)[n])
    ensures var (file', r) := L.FileAppend(file, ImportRequest(Stream(s, t)[n]));
            Repaired(s, t, (file', r.Ok?), ids + [Stream(s, t)[n].eventId])
  {
    var id := Stream(s, t)[n].eventId;
    var held := HeldIds(s.file, t);
    var file' := L.FileAppend(file, ImportRequest(Stream(s, t)[n])).0;
    assert CleanFile(s, file') && L.Parses(file') && L.FileAppend(file, ImportRequest(Stream(s, t)[n])).1.Ok? by {
      ImportWorks(s, file, t, n);
    }
    MissingSnoc(ids, id, held);
    forall u ensures HeldIds(file', u) == HeldIds(file, u) + (if u == t && id !in HeldIds(file, t) then [id] else []) {
      ImportHeld(s, t, file, n, u);
    }
    Regroup(held, Missing(ids, held), if id in held then [] else [id]);
  }

  lemma Regroup(a: seq<string>, b: seq<string>, c: seq<string>)
    ensures (a + b) + c == a + (b + c)
  {
  }

  lemma RepairStep(s: Shadow, t: string, n: nat, mid: (seq<L.Event>, bool), whole: (seq<L.Event>, bool))
    requires CleanStreams(s) && n < |Stream(s, t)| && Repaired(s, t, mid, Ids(Stream(s, t))[..n])
    requires WholeEvent(Stream(s, t)[n])
    requires var r := L.FileAppend(mid.0, ImportRequest(Stream(s, t)[n])); whole == (r.0, r.1.Ok?)
    ensures Repaired(s, t, whole, Ids(Stream(s, t))[..n + 1])
  {
    var ids := Ids(Stream(s, t));
    StreamIdsDistinct(s, t);
    assert ids[..n + 1] == ids[..n] + [Stream(s, t)[n].eventId];
    assert forall k :: 0 <= k < n ==> ids[..n][k] == ids[k] && ids[k] != ids[n];
    RepairOne(s, t, mid.0, ids[..n], n);
  }

  lemma RepairSnoc(file: seq<L.Event>, events: seq<HarnessEvent>, n: nat)
    requires n < |events|
    ensures var mid := Repair(file, events[..n]);
            var r := L.FileAppend(mid.0, ImportRequest(events[n]));
            Repair(file, events[..n + 1]) == if mid.1 then (r.0, r.1.Ok?) else (mid.0, false)
  {
    assert events[..n + 1][..n] == events[..n];
  }

  // Repair appends, in stream order, exactly the events the ledger lacks.
  lemma {:induction false} RepairAppendsMissing(s: Shadow, t: string, count: nat)
    requires Clean(s) && count <= |Stream(s, t)| && Legible(Stream(s, t)) && L.Parses(s.file)
    ensures Repaired(s, t, Repair(s.file, Stream(s, t)[..count]), Ids(Stream(s, t))[..count])
  {
    var stream := Stream(s, t);
    if count == 0 {
      EmptySides(HeldIds(s.file, t));
    } else {
      RepairAppendsMissing(s, t, count - 1);
      RepairSnoc(s.file, stream, count - 1);
      RepairStep(s, t, count - 1, Repair(s.file, stream[..count - 1]), Repair(s.file, stream[..count]));
    }
  }

  // A ledger file that does not parse imports nothing.
  lemma {:induction false} RepairBroken(file: seq<L.Event>, events: seq<HarnessEvent>)
    requires !L.Parses(file)
    ensures Repair(file, events) == (file, events == [])
  {
    if events != [] {
      RepairBroken(file, events[..|events| - 1]);
    }
  }

  lemma {:induction false} MissingMembers(ids: seq<string>, held: seq<string>)
    ensures forall id :: id in Missing(ids, held) <==> id in ids && id !in held
  {
    if ids != [] {
      MissingMembers(ids[..|ids| - 1], held);
      assert ids == ids[..|ids| - 1] + [ids[|ids| - 1]];
    }
  }

  lemma {:induction false} MissingNone(ids: seq<string>, held: seq<string>)
    requires forall id :: id in ids ==> id in held
    ensures Missing(ids, held) == []
  {
    if ids != [] {
      var n := |ids| - 1;
      assert ids == ids[..n] + [ids[n]];
      MissingNone(ids[..n], held);
    }
  }

  lemma {:induction false} MissingOfPrefix(ids: seq<string>, k: nat, n: nat)
    requires k <= n <= |ids| && forall i, j :: 0 <= i < j < |ids| ==> ids[i] != ids[j]
    ensures Missing(ids[..n], ids[..k]) == ids[k..n]
  {
    if n > k {
      MissingOfPrefix(ids, k, n - 1);
      assert ids[..n][..n - 1] == ids[..n - 1];
      assert ids[n - 1] !in ids[..k] && ids[k..n] == ids[k..n - 1] + [ids[n - 1]];
    } else {
      MissingNone(ids[..n], ids[..k]);
    }
  }

  // ---------------------------------------------------------------- what a read returns

  // A row imported from an event decodes to that event, whatever sequence the ledger gave it.
  lemma DecodeImport(s: Shadow, row: L.Event, t: string, i: nat, sequence: nat)
    requires CleanStreams(s) && i < |Stream(s, t)| && IsImportOf(row, Stream(s, t)[i])
    ensures Decode(row, sequence) == Stream(s, t)[i].(sequence := sequence)
  {
    var e := Stream(s, t)[i];
    assert PREFIX <= ImportKey(e);
    assert ImportKey(e)[|PREFIX|..] == if e.key.Some? then e.key.value else e.eventId;
    assert (PREFIX + e.eventId)[|PREFIX|..] == e.eventId;
    assert e.key != Some(e.eventId);
  }

  lemma RowDecodes(s: Shadow, file: seq<L.Event>, t: string, row: L.Event, k: nat)
    requires CleanStreams(s) && CleanFile(s, file) && k < |Stream(s, t)|
    requires row in file && row.taskId == t && row.content.source == SOURCE
    requires row.content.sourceId == Stream(s, t)[k].eventId
    ensures Decode(row, k + 1) == Stream(s, t)[k]
  {
    var j :| 0 <= j < |Stream(s, t)| && IsImportOf(row, Stream(s, t)[j]);
    assert j == k;
    DecodeImport(s, row, t, k, k + 1);
  }

  lemma DecodedIds(rows: seq<L.Event>)
    ensures Ids(DecodeAll(rows)) == RowIds(rows)
  {
  }

  lemma InOrderDecodes(s: Shadow, file: seq<L.Event>, t: string, rows: seq<L.Event>)
    requires CleanStreams(s) && CleanFile(s, file) && RowIds(rows) == Ids(Stream(s, t))
    requires forall row :: row in rows ==> row in file && row.taskId == t && row.content.source == SOURCE
    ensures DecodeAll(rows) == Stream(s, t)
  {
    var stream := Stream(s, t);
    assert |rows| == |RowIds(rows)| == |Ids(stream)| == |stream|;
    forall k | 0 <= k < |rows| ensures DecodeAll(rows)[k] == stream[k] {
      assert rows[k] in rows && RowIds(rows)[k] == Ids(stream)[k];
      RowDecodes(s, file, t, rows[k], k);
    }
  }

  // Held rows read back as the stream exactly when they are its events in its order.
  lemma DecodedIsStreamIff(s: Shadow, file: seq<L.Event>, t: string, rows: seq<L.Event>)
    requires CleanStreams(s) && CleanFile(s, file)
    requires forall row :: row in rows ==> row in file && row.taskId == t && row.content.source == SOURCE
    ensures DecodeAll(rows) == Stream(s, t) <==> RowIds(rows) == Ids(Stream(s, t))
  {
    DecodedIds(rows);
    if RowIds(rows) == Ids(Stream(s, t)) {
      InOrderDecodes(s, file, t, rows);
    }
  }

  ghost predicate InOrder(s: Shadow, task: string) { HeldIds(s.file, task) <= Ids(Stream(s, task)) }

  lemma {:induction false} SelectAll(log: seq<L.Event>, task: string)
    requires forall k :: 0 <= k < |log| ==> log[k].taskId == task && log[k].sequence == k + 1
    ensures L.FileSelect(log, Query(task)) == log
  {
    if log != [] {
      SelectAll(log[..|log| - 1], task);
    }
  }

  // How a read of the whole stream ends.
  ghost predicate ReadOutcome(s: Shadow, task: string, next: (Shadow, Result<seq<HarnessEvent>, ()>)) {
    && Clean(next.0) && next.0.streams == s.streams && (next.1.Err? ==> next.0 == s)
    && (next.1.Ok? <==> Legible(Stream(s, task)) && L.Parses(s.file))
    && (next.1.Ok? ==> (next.1.value == Stream(s, task) <==> InOrder(s, task)))
    && (next.1.Ok? && InOrder(s, task) ==> HeldIds(next.0.file, task) == Ids(Stream(s, task)))
  }

  // The whole refinement in one statement. A read returns exactly when the task's own stream and the ledger file both
  // parse. With at most 100000 rows for the task after repair, it then returns the operational stream field for
  // field exactly when, before the read, the ledger held a prefix of that stream in order; and it leaves the ledger
  // clean and holding every event.
  lemma ReadIsStreamIff(s: Shadow, task: string)
    requires Clean(s)
    requires |L.TaskLog(Repair(s.file, Stream(s, task)).0, task)| <= 100_000
    ensures ReadOutcome(s, task, ShadowRead(s, task, 0))
  {
    if !L.Parses(s.file) {
      BrokenRead(s, task, 0);
    } else if Legible(Stream(s, task)) {
      RepairAll(s, task);
      WholeRead(s, task, Repair(s.file, Stream(s, task)));
    }
  }

  lemma BrokenRead(s: Shadow, task: string, after: int)
    requires !L.Parses(s.file)
    ensures ShadowRead(s, task, after) == (s, Err(()))
  {
    if Legible(Stream(s, task)) {
      RepairBroken(s.file, Stream(s, task));
      assert s.(file := s.file) == s;
    }
  }

  lemma WholeRead(s: Shadow, task: string, next: (seq<L.Event>, bool))
    requires Clean(s) && Legible(Stream(s, task)) && L.Parses(s.file)
    requires next == Repair(s.file, Stream(s, task)) && next.1 && CleanFile(s, next.0) && L.Parses(next.0)
    requires HeldIds(next.0, task) == Ids(Stream(s, task)) <==> InOrder(s, task)
    requires |L.TaskLog(next.0, task)| <= 100_000
    ensures ReadOutcome(s, task, ShadowRead(s, task, 0))
  {
    var rows := HarnessRows(L.TaskLog(next.0, task));
    ReadRows(s, next.0, task);
    RowsReadIff(s, task, next.0, rows);
    assert ShadowRead(s, task, 0) == (s.(file := next.0), Ok(DecodeAll(rows)));
  }

  lemma RowsReadIff(s: Shadow, task: string, file: seq<L.Event>, rows: seq<L.Event>)
    requires Clean(s) && CleanFile(s, file) && Legible(Stream(s, task)) && L.Parses(s.file)
    requires HeldIds(file, task) == Ids(Stream(s, task)) <==> InOrder(s, task)
    requires rows == HarnessRows(L.TaskLog(file, task))
    requires forall row :: row in rows ==> row in file && row.taskId == task && row.content.source == SOURCE
    ensures ReadOutcome(s, task, (s.(file := file), Ok(DecodeAll(rows))))
  {
    DecodedIsStreamIff(s, file, task, rows);
    CleanWithFile(s, file);
  }

  lemma CleanWithFile(s: Shadow, file: seq<L.Event>)
    requires CleanStreams(s) && CleanFile(s, file)
    ensures Clean(s.(file := file))
  {
    var s' := s.(file := file);
    assert forall t :: Stream(s', t) == Stream(s, t);
  }

  // Complete repair: held ids first, then the missing ones; that is the stream's order iff it began as its prefix.
  lemma RepairAll(s: Shadow, task: string)
    requires Clean(s) && Legible(Stream(s, task)) && L.Parses(s.file)
    ensures var next := Repair(s.file, Stream(s, task));
            && next.1 && CleanFile(s, next.0) && L.Parses(next.0)
            && (HeldIds(next.0, task) == Ids(Stream(s, task)) <==> InOrder(s, task))
  {
    var stream := Stream(s, task);
    var held, ids := HeldIds(s.file, task), Ids(stream);
    assert stream[..|stream|] == stream && ids[..|stream|] == ids;
    RepairAppendsMissing(s, task, |stream|);
    StreamIdsDistinct(s, task);
    if held <= ids {
      MissingOfPrefix(ids, |held|, |ids|);
      assert ids[..|held|] == held && ids[..|ids|] == ids;
      assert held + ids[|held|..|ids|] == ids;
    } else {
      assert held <= held + Missing(ids, held);
    }
  }

  lemma StreamIdsDistinct(s: Shadow, task: string)
    requires CleanStreams(s)
    ensures forall i, j :: 0 <= i < j < |Ids(Stream(s, task))| ==> Ids(Stream(s, task))[i] != Ids(Stream(s, task))[j]
  {
  }

  lemma ReadAll(s: Shadow, file: seq<L.Event>, task: string)
    requires CleanFile(s, file) && |L.TaskLog(file, task)| <= 100_000 && L.Parses(file)
    ensures L.FileRead(file, Query(task)) == Ok(L.TaskLog(file, task))
  {
    SelectAll(L.TaskLog(file, task), task);
    L.SelectFromTaskLog(file, Query(task));
  }

  lemma RowsOwned(file: seq<L.Event>, task: string)
    ensures forall row :: row in HarnessRows(L.TaskLog(file, task)) ==>
      row in file && row.taskId == task && row.content.source == SOURCE
  {
    L.TaskLogMembers(file, task);
    HarnessRowsMembers(L.TaskLog(file, task));
  }

  lemma ReadRows(s: Shadow, file: seq<L.Event>, task: string)
    requires CleanFile(s, file) && |L.TaskLog(file, task)| <= 100_000 && L.Parses(file)
    ensures var rows := HarnessRows(L.TaskLog(file, task));
            && L.FileRead(file, Query(task)) == Ok(L.TaskLog(file, task))
            && After(DecodeAll(rows), 0) == DecodeAll(rows)
            && forall row :: row in rows ==> row in file && row.taskId == task && row.content.source == SOURCE
  {
    ReadAll(s, file, task);
    RowsOwned(file, task);
    DecodedInOrder(HarnessRows(L.TaskLog(file, task)));
  }

  lemma DecodedInOrder(rows: seq<L.Event>)
    ensures After(DecodeAll(rows), 0) == DecodeAll(rows)
  {
    AfterZero(DecodeAll(rows));
  }

  lemma {:induction false} AfterZero(events: seq<HarnessEvent>)
    requires forall k :: 0 <= k < |events| ==> events[k].sequence == k + 1
    ensures After(events, 0) == events
  {
    if events != [] {
      AfterZero(events[..|events| - 1]);
    }
  }

  // With a cursor, both stores skip the same events, or both raise on the task's own separators; a separator of any
  // other row makes this store raise alone.
  lemma ReadAfterIsStreamAfter(s: Shadow, task: string, after: int)
    requires Clean(s) && InOrder(s, task)
    requires |L.TaskLog(Repair(s.file, Stream(s, task)).0, task)| <= 100_000
    ensures ShadowRead(s, task, after).1 == if L.Parses(s.file) then StreamRead(Stream(s, task), after) else Err(())
  {
    if !L.Parses(s.file) {
      RepairBroken(s.file, Stream(s, task));
    } else if Legible(Stream(s, task)) {
      ReadIsStreamIff(s, task);
      RepairAll(s, task);
      ReadRows(s, Repair(s.file, Stream(s, task)).0, task);
    }
  }

  // ---------------------------------------------------------------- every serial history

  // The event an append returns: the one already under its key, or the next of the stream.
  function Target(stream: seq<HarnessEvent>, r: Request): nat {
    var found := if r.key.Some? then FindKey(stream, r.key.value) else None;
    if found.Some? then found.value else |stream|
  }

  // A fresh uuid, and keys that are never event ids.
  ghost predicate FreshId(s: Shadow, r: Request) {
    && (forall t: string, i: nat :: i < |Stream(s, t)| ==>
          Stream(s, t)[i].eventId != r.id && Stream(s, t)[i].key != Some(r.id)
          && r.key != Some(Stream(s, t)[i].eventId))
    && r.key != Some(r.id)
  }

  // s' is s with one more event in one stream.
  ghost predicate OneMore(s: Shadow, s': Shadow, task: string, e: HarnessEvent) {
    forall t :: Stream(s', t) == if t == task then Stream(s, t) + [e] else Stream(s, t)
  }

  lemma NewEventCleanStreams(s: Shadow, s': Shadow, task: string, e: HarnessEvent)
    requires CleanStreams(s) && OneMore(s, s', task, e)
    requires e.taskId == task && e.sequence == |Stream(s, task)| + 1
    requires forall t: string, i: nat :: i < |Stream(s, t)| ==>
      Stream(s, t)[i].eventId != e.eventId && Stream(s, t)[i].key != Some(e.eventId)
      && e.key != Some(Stream(s, t)[i].eventId)
    requires e.key != Some(e.eventId)
    requires e.key.Some? ==> forall i: nat :: i < |Stream(s, task)| ==> Stream(s, task)[i].key != e.key
    ensures CleanStreams(s')
  {
    forall t: string, i: nat | i < |Stream(s', t)|
      ensures Stream(s', t)[i] == if i < |Stream(s, t)| then Stream(s, t)[i] else e
      ensures i >= |Stream(s, t)| ==> t == task && i == |Stream(s, t)|
    {
    }
  }

  lemma NewEventCleanFile(s: Shadow, s': Shadow, task: string, e: HarnessEvent)
    requires CleanFile(s, s.file) && OneMore(s, s', task, e) && s'.file == s.file
    ensures CleanFile(s', s'.file)
  {
    forall row | row in s.file && row.content.source == SOURCE
      ensures exists i :: 0 <= i < |Stream(s', row.taskId)| && IsImportOf(row, Stream(s', row.taskId)[i])
    {
      var i :| 0 <= i < |Stream(s, row.taskId)| && IsImportOf(row, Stream(s, row.taskId)[i]);
      assert Stream(s', row.taskId)[i] == Stream(s, row.taskId)[i];
    }
  }

  lemma StreamAppendKeeps(s: Shadow, r: Request)
    requires Clean(s) && FreshId(s, r)
    ensures var stream' := StreamAppend(Stream(s, r.taskId), r).0;
            var s' := WithStream(s, r.taskId, stream');
            && Clean(s') && Stream(s, r.taskId) <= stream'
            && forall t :: Stream(s', t) == if t == r.taskId then stream' else Stream(s, t)
  {
    var stream := Stream(s, r.taskId);
    var stream' := StreamAppend(stream, r).0;
    var s' := WithStream(s, r.taskId, stream');
    if stream' == stream {
      assert forall t :: Stream(s', t) == Stream(s, t);
    } else {
      var e := Created(stream, r);
      assert OneMore(s, s', r.taskId, e);
      assert r.key.Some? ==> forall i :: 0 <= i < |stream| ==> stream[i] in stream && stream[i].key != r.key;
      NewEventCleanStreams(s, s', r.taskId, e);
      NewEventCleanFile(s, s', r.taskId, e);
    }
  }

  lemma IdsPrefix(a: seq<HarnessEvent>, b: seq<HarnessEvent>)
    requires a <= b
    ensures Ids(a) <= Ids(b)
  {
  }

  // What a completed append needs: nothing is imported, or every earlier event of the stream already is.
  predicate CaughtUp(s: Shadow, r: Request) {
    StreamAppend(Stream(s, r.taskId), r).1.Err? || !L.Parses(s.file)
    || Target(Stream(s, r.taskId), r) <= |HeldIds(s.file, r.taskId)|
  }

  ghost predicate AppendOutcome(s: Shadow, r: Request, crash: bool, next: (Shadow, Result<HarnessEvent, ()>)) {
    && Clean(next.0)
    && Stream(next.0, r.taskId) == StreamAppend(Stream(s, r.taskId), r).0
    && (InOrder(next.0, r.taskId) <==> crash || CaughtUp(s, r))
    && (forall t :: t != r.taskId && InOrder(s, t) ==> InOrder(next.0, t))
    && (!crash ==> next.1 == if L.Parses(s.file) then StreamAppend(Stream(s, r.taskId), r).1 else Err(()))
  }

  // The operational write alone (a crash before the ledger write) keeps the ledger in order. A completed append
  // keeps it in order exactly when the ledger had caught up with everything before the appended event: after a
  // crash, a new append that is not preceded by a read (or by a retry of the lost one) breaks the order, and for
  // good, as OutOfOrderForGood shows.
  lemma AppendKeepsOrderIff(s: Shadow, r: Request, crash: bool)
    requires Clean(s) && FreshId(s, r) && InOrder(s, r.taskId)
    ensures AppendOutcome(s, r, crash, ShadowAppend(s, r, crash))
  {
    var stream' := StreamAppend(Stream(s, r.taskId), r).0;
    var s1 := WithStream(s, r.taskId, stream');
    assert Stream(s1, r.taskId) == stream';
    OperationalWriteKeepsOrder(s, r);
    if !crash && StreamAppend(Stream(s, r.taskId), r).1.Ok? && L.Parses(s.file) {
      CompletedAppend(s, s1, r);
    }
  }

  lemma CompletedAppend(s: Shadow, s1: Shadow, r: Request)
    requires StreamAppend(Stream(s, r.taskId), r).1.Ok? && L.Parses(s.file)
    requires s1 == WithStream(s, r.taskId, StreamAppend(Stream(s, r.taskId), r).0)
    requires Clean(s1) && InOrder(s1, r.taskId) && forall t :: InOrder(s, t) ==> InOrder(s1, t)
    ensures AppendOutcome(s, r, false, ShadowAppend(s, r, false))
  {
    var stream := Stream(s, r.taskId);
    var n := Target(stream, r);
    var e := StreamAppend(stream, r).1.value;
    assert n < |Stream(s1, r.taskId)| && Stream(s1, r.taskId)[n] == e;
    LedgerWriteKeepsOrderIff(s1, r.taskId, n);
    var (file, imported) := L.FileAppend(s1.file, ImportRequest(e));
    assert ShadowAppend(s, r, false) == (s1.(file := file), Ok(e));
    AfterLedgerWrite(s, s1, r, file, n, Ok(e));
  }

  lemma AfterLedgerWrite(
    s: Shadow, s1: Shadow, r: Request, file: seq<L.Event>, n: nat, out: Result<HarnessEvent, ()>)
    requires L.Parses(s.file) && out.Ok? && StreamAppend(Stream(s, r.taskId), r).1 == out
    requires s1 == WithStream(s, r.taskId, StreamAppend(Stream(s, r.taskId), r).0)
    requires n == Target(Stream(s, r.taskId), r)
    requires Clean(s1.(file := file))
    requires InOrder(s1.(file := file), r.taskId) <==> n <= |HeldIds(s1.file, r.taskId)|
    requires forall t :: InOrder(s, t) ==> InOrder(s1, t)
    requires forall t :: t != r.taskId ==> HeldIds(file, t) == HeldIds(s1.file, t)
    ensures AppendOutcome(s, r, false, (s1.(file := file), out))
  {
    var s2 := s1.(file := file);
    forall t | t != r.taskId && InOrder(s, t) ensures InOrder(s2, t) {
      assert InOrder(s1, t) && Stream(s2, t) == Stream(s1, t);
    }
    assert Stream(s2, r.taskId) == StreamAppend(Stream(s, r.taskId), r).0;
  }

  // A read that does not raise imports everything its task still lacks, so any append to that task may follow it.
  lemma ReadCatchesUp(s: Shadow, r: Request)
    requires Clean(s) && InOrder(s, r.taskId)
    ensures var (s', out) := ShadowRead(s, r.taskId, 0);
            && CaughtUp(s', r)
            && (out.Ok? ==> HeldIds(s'.file, r.taskId) == Ids(Stream(s', r.taskId)))
  {
    if !L.Parses(s.file) {
      RepairBroken(s.file, Stream(s, r.taskId));
    } else if Legible(Stream(s, r.taskId)) {
      RepairAll(s, r.taskId);
    }
  }

  ghost predicate CaughtUpBut(ids: seq<string>, held: seq<string>, n: nat) {
    n < |ids| && (held == ids || (n == |ids| - 1 && held == ids[..n]))
  }

  lemma CatchUp(ids: seq<string>, held: seq<string>, n: nat)
    requires CaughtUpBut(ids, held, n) && forall i, j :: 0 <= i < j < |ids| ==> ids[i] != ids[j]
    ensures held + (if ids[n] !in held then [ids[n]] else []) == ids
  {
    assert held == ids ==> held[n] == ids[n];
    assert forall k :: 0 <= k < |held| ==> held[k] == ids[k];
  }

  lemma ImportCatchesUp(s: Shadow, task: string, n: nat)
    requires Clean(s) && CaughtUpBut(Ids(Stream(s, task)), HeldIds(s.file, task), n) && L.Parses(s.file)
    ensures HeldIds(L.FileAppend(s.file, ImportRequest(Stream(s, task)[n])).0, task) == Ids(Stream(s, task))
  {
    StreamIdsDistinct(s, task);
    CatchUp(Ids(Stream(s, task)), HeldIds(s.file, task), n);
    assert Ids(Stream(s, task))[n] == Stream(s, task)[n].eventId;
    ImportHeld(s, task, s.file, n, task);
  }

  // Without crashes a task that has caught up stays caught up exactly when the ledger file parses or nothing is new.
  lemma AppendStaysCaughtUp(s: Shadow, r: Request)
    requires Clean(s) && FreshId(s, r) && HeldIds(s.file, r.taskId) == Ids(Stream(s, r.taskId))
    ensures var s' := ShadowAppend(s, r, false).0;
            HeldIds(s'.file, r.taskId) == Ids(Stream(s', r.taskId))
            <==> L.Parses(s.file) || StreamAppend(Stream(s, r.taskId), r).0 == Stream(s, r.taskId)
  {
    var stream' := StreamAppend(Stream(s, r.taskId), r).0;
    var s1 := WithStream(s, r.taskId, stream');
    assert Clean(s1) by { OperationalWriteKeepsOrder(s, r); }
    assert Stream(s1, r.taskId) == stream';
    if !L.Parses(s.file) {
      assert |Ids(stream')| == |stream'| && |Ids(Stream(s, r.taskId))| == |Stream(s, r.taskId)|;
    } else if StreamAppend(Stream(s, r.taskId), r).1.Ok? {
      CompletedCatchesUp(s, s1, r, Stream(s, r.taskId));
    }
  }

  lemma CompletedCatchesUp(s: Shadow, s1: Shadow, r: Request, stream: seq<HarnessEvent>)
    requires stream == Stream(s, r.taskId) && StreamAppend(stream, r).1.Ok? && L.Parses(s.file)
    requires s1 == WithStream(s, r.taskId, StreamAppend(stream, r).0) && Clean(s1)
    requires HeldIds(s.file, r.taskId) == Ids(stream)
    ensures var s' := ShadowAppend(s, r, false).0;
            HeldIds(s'.file, r.taskId) == Ids(Stream(s', r.taskId))
  {
    var stream' := StreamAppend(stream, r).0;
    assert Stream(s1, r.taskId) == stream' && Ids(stream')[..|stream|] == Ids(stream);
    assert stream'[Target(stream, r)] == StreamAppend(stream, r).1.value;
    ImportCatchesUp(s1, r.taskId, Target(stream, r));
  }

  lemma OperationalWriteKeepsOrder(s: Shadow, r: Request)
    requires Clean(s) && FreshId(s, r)
    ensures var s1 := WithStream(s, r.taskId, StreamAppend(Stream(s, r.taskId), r).0);
            Clean(s1) && (forall t :: InOrder(s, t) ==> InOrder(s1, t))
  {
    var s1 := WithStream(s, r.taskId, StreamAppend(Stream(s, r.taskId), r).0);
    StreamAppendKeeps(s, r);
    forall t | InOrder(s, t) ensures InOrder(s1, t) {
      IdsPrefix(Stream(s, t), Stream(s1, t));
    }
  }

  lemma LedgerWriteKeepsOrderIff(s: Shadow, task: string, n: nat)
    requires Clean(s) && n < |Stream(s, task)| && InOrder(s, task) && L.Parses(s.file)
    ensures var (file, r) := L.FileAppend(s.file, ImportRequest(Stream(s, task)[n]));
            && r.Ok? && Clean(s.(file := file))
            && (InOrder(s.(file := file), task) <==> n <= |HeldIds(s.file, task)|)
            && (forall t :: t != task ==> HeldIds(file, t) == HeldIds(s.file, t))
  {
    var file := L.FileAppend(s.file, ImportRequest(Stream(s, task)[n])).0;
    assert L.FileAppend(s.file, ImportRequest(Stream(s, task)[n])).1.Ok? && Clean(s.(file := file)) by {
      ImportWorks(s, s.file, task, n);
      CleanWithFile(s, file);
    }
    forall t | t != task ensures HeldIds(file, t) == HeldIds(s.file, t) {
      ImportHeld(s, task, s.file, n, t);
      EmptySides(HeldIds(s.file, t));
    }
    ImportKeepsOrderIff(s, task, n, file);
  }

  lemma ImportKeepsOrderIff(s: Shadow, task: string, n: nat, file: seq<L.Event>)
    requires Clean(s) && n < |Stream(s, task)| && InOrder(s, task) && L.Parses(s.file)
    requires file == L.FileAppend(s.file, ImportRequest(Stream(s, task)[n])).0
    ensures InOrder(s.(file := file), task) <==> n <= |HeldIds(s.file, task)|
  {
    ImportHeld(s, task, s.file, n, task);
    StreamIdsDistinct(s, task);
    assert Stream(s.(file := file), task) == Stream(s, task);
    assert Ids(Stream(s, task))[n] == Stream(s, task)[n].eventId;
    ExtendPrefixIff(Ids(Stream(s, task)), HeldIds(s.file, task), n);
  }

  lemma ExtendPrefixIff(ids: seq<string>, held: seq<string>, n: nat)
    requires held <= ids && n < |ids| && forall i, j :: 0 <= i < j < |ids| ==> ids[i] != ids[j]
    ensures held + (if ids[n] !in held then [ids[n]] else []) <= ids <==> n <= |held|
  {
    assert forall k :: 0 <= k < |held| ==> held[k] == ids[k];
    if ids[n] in held {
      var k :| 0 <= k < |held| && held[k] == ids[n];
      assert ids[k] == ids[n];
    } else {
      var longer := held + [ids[n]];
      assert longer[|held|] == ids[n];
    }
  }

  // Rows of other sources, interleaved at will, are invisible to the harness stream; but one that holds a separator
  // makes the ledger file unreadable for every task.
  lemma ForeignAppendInvisible(s: Shadow, q: L.Request)
    requires Clean(s) && q.content.source != SOURCE && !(PREFIX <= L.KeyOf(q))
    ensures var s' := s.(file := L.FileAppend(s.file, q).0);
            && Clean(s') && (forall t :: HeldIds(s'.file, t) == HeldIds(s.file, t))
            && (L.Parses(s'.file) <==> L.Parses(s.file) && (s'.file == s.file || L.WholeRequest(q)))
  {
    var (file, r) := L.FileAppend(s.file, q);
    L.AppendKeeps(s.file, q);
    L.AppendParsesIff(s.file, q);
    if file != s.file {
      forall t ensures HeldIds(file, t) == HeldIds(s.file, t) {
        HeldIdsSnoc(s.file, r.value, t);
        assert HeldIds(s.file, t) + [] == HeldIds(s.file, t);
      }
    }
    CleanWithFile(s, file);
  }

  datatype Step = Append(request: Request, crash: bool) | Read(task: string) | Foreign(other: L.Request)

  function Perform(s: Shadow, step: Step): Shadow {
    match step
    case Append(r, crash) => ShadowAppend(s, r, crash).0
    case Read(task) => ShadowRead(s, task, 0).0
    case Foreign(q) => s.(file := L.FileAppend(s.file, q).0)
  }

  // Fresh ids, foreign keys, and no completed append past events the ledger still lacks.
  ghost predicate Disciplined(s: Shadow, step: Step) {
    match step
    case Append(r, crash) =>
      FreshId(s, r)
      && (crash || CaughtUp(s, r))
    case Read(_) => true
    case Foreign(q) => q.content.source != SOURCE && !(PREFIX <= L.KeyOf(q))
  }

  ghost predicate DisciplinedRun(s: Shadow, steps: seq<Step>)
    decreases steps
  {
    steps == [] || (Disciplined(s, steps[0]) && DisciplinedRun(Perform(s, steps[0]), steps[1..]))
  }

  function PerformAll(s: Shadow, steps: seq<Step>): Shadow
    decreases steps
  {
    if steps == [] then s else PerformAll(Perform(s, steps[0]), steps[1..])
  }

  ghost predicate AllInOrder(s: Shadow) { Clean(s) && forall t :: InOrder(s, t) }

  lemma StepKeepsOrder(s: Shadow, step: Step)
    requires AllInOrder(s) && Disciplined(s, step)
    ensures AllInOrder(Perform(s, step))
  {
    match step {
      case Append(r, crash) => AppendKeepsOrderIff(s, r, crash);
      case Read(task) => ReadKeepsOrder(s, task);
      case Foreign(q) =>
        ForeignAppendInvisible(s, q);
        var s' := Perform(s, step);
        forall t ensures InOrder(s', t) {
          assert InOrder(s, t) && Stream(s', t) == Stream(s, t);
        }
    }
  }

  lemma RepairedKeepsOrder(s: Shadow, task: string)
    requires AllInOrder(s) && Legible(Stream(s, task)) && L.Parses(s.file)
    ensures AllInOrder(ShadowRead(s, task, 0).0)
  {
    var stream := Stream(s, task);
    RepairAll(s, task);
    assert stream[..|stream|] == stream && Ids(stream)[..|stream|] == Ids(stream);
    RepairAppendsMissing(s, task, |stream|);
    var s' := ShadowRead(s, task, 0).0;
    CleanWithFile(s, s'.file);
    forall t ensures InOrder(s', t) {
      assert InOrder(s, t) && Stream(s', t) == Stream(s, t);
    }
  }

  lemma ReadKeepsOrder(s: Shadow, task: string)
    requires AllInOrder(s)
    ensures AllInOrder(ShadowRead(s, task, 0).0)
  {
    if !L.Parses(s.file) {
      RepairBroken(s.file, Stream(s, task));
    } else if Legible(Stream(s, task)) {
      RepairedKeepsOrder(s, task);
    }
  }

  // After any disciplined history (crashes, retries, reads, foreign rows), a read of any task returns the operational
  // stream exactly when that stream and the ledger file both parse. It differs from what the operational store would
  // answer exactly when that stream parses and the ledger file does not.
  lemma {:induction false} ReadsAreTheStreamIff(s: Shadow, steps: seq<Step>, task: string)
    requires AllInOrder(s) && DisciplinedRun(s, steps)
    requires var s' := PerformAll(s, steps);
             |L.TaskLog(Repair(s'.file, Stream(s', task)).0, task)| <= 100_000
    ensures var s' := PerformAll(s, steps);
            var out := ShadowRead(s', task, 0).1;
            && (out == Ok(Stream(s', task)) <==> Legible(Stream(s', task)) && L.Parses(s'.file))
            && (out == StreamRead(Stream(s', task), 0) <==> (Legible(Stream(s', task)) ==> L.Parses(s'.file)))
    decreases steps
  {
    if steps == [] {
      assert InOrder(s, task);
      ReadIsStreamIff(s, task);
      if Legible(Stream(s, task)) {
        AfterZero(Stream(s, task));
      }
    } else {
      StepKeepsOrder(s, steps[0]);
      ReadsAreTheStreamIff(Perform(s, steps[0]), steps[1..], task);
    }
  }

  // The step brings no text with a separator.
  predicate WholeStep(step: Step) {
    match step
    case Append(r, _) => WholeRequest(r)
    case Read(_) => true
    case Foreign(q) => L.WholeRequest(q)
  }

  ghost predicate AllParse(s: Shadow) { L.Parses(s.file) && forall t :: Legible(Stream(s, t)) }

  lemma StreamAppendLegible(stream: seq<HarnessEvent>, r: Request)
    requires Legible(stream) && WholeRequest(r)
    ensures Legible(StreamAppend(stream, r).0)
    ensures StreamAppend(stream, r).1.Ok? ==> WholeEvent(StreamAppend(stream, r).1.value)
  {
  }

  lemma AppendParses(s: Shadow, r: Request, crash: bool)
    requires AllParse(s) && WholeRequest(r)
    ensures AllParse(ShadowAppend(s, r, crash).0)
  {
    var (stream, result) := StreamAppend(Stream(s, r.taskId), r);
    var s' := ShadowAppend(s, r, crash).0;
    StreamAppendLegible(Stream(s, r.taskId), r);
    forall t ensures Legible(Stream(s', t)) {
      assert Stream(s', t) == if t == r.taskId then stream else Stream(s, t);
    }
    if result.Ok? {
      ImportIsWhole(result.value);
      L.AppendParsesIff(s.file, ImportRequest(result.value));
    }
  }

  lemma {:induction false} RepairParses(file: seq<L.Event>, events: seq<HarnessEvent>)
    requires L.Parses(file) && Legible(events)
    ensures L.Parses(Repair(file, events).0)
  {
    if events != [] {
      var n := |events| - 1;
      RepairParses(file, events[..n]);
      ImportIsWhole(events[n]);
      L.AppendParsesIff(Repair(file, events[..n]).0, ImportRequest(events[n]));
    }
  }

  lemma StepParses(s: Shadow, step: Step)
    requires AllParse(s) && WholeStep(step)
    ensures AllParse(Perform(s, step))
  {
    match step {
      case Append(r, crash) => AppendParses(s, r, crash);
      case Read(task) =>
        RepairParses(s.file, Stream(s, task));
        assert forall t :: Stream(Perform(s, step), t) == Stream(s, t);
      case Foreign(q) =>
        L.AppendParsesIff(s.file, q);
        assert forall t :: Stream(Perform(s, step), t) == Stream(s, t);
    }
  }

  lemma {:induction false} RunParses(s: Shadow, steps: seq<Step>)
    requires AllParse(s) && forall step :: step in steps ==> WholeStep(step)
    ensures AllParse(PerformAll(s, steps))
    decreases steps
  {
    if steps != [] {
      StepParses(s, steps[0]);
      RunParses(Perform(s, steps[0]), steps[1..]);
    }
  }

  // After any disciplined history without a separator in a text, every read of every task returns the operational
  // stream.
  lemma EveryReadIsTheStream(s: Shadow, steps: seq<Step>, task: string)
    requires AllInOrder(s) && DisciplinedRun(s, steps)
    requires AllParse(s) && forall step :: step in steps ==> WholeStep(step)
    requires var s' := PerformAll(s, steps);
             |L.TaskLog(Repair(s'.file, Stream(s', task)).0, task)| <= 100_000
    ensures var s' := PerformAll(s, steps); ShadowRead(s', task, 0).1 == Ok(Stream(s', task))
  {
    RunParses(s, steps);
    ReadsAreTheStreamIff(s, steps, task);
  }

  // ---------------------------------------------------------------- order, once lost

  lemma HeldFromRows(file: seq<L.Event>, task: string, id: string)
    requires id in HeldIds(file, task)
    ensures exists row :: row in file && row.content.source == SOURCE && row.content.sourceId == id
  {
    var rows := HarnessRows(L.TaskLog(file, task));
    RowsOwned(file, task);
    var k :| 0 <= k < |rows| && RowIds(rows)[k] == id;
    assert rows[k] in rows;
  }

  // An event is held once.
  lemma {:induction false} HeldDistinct(file: seq<L.Event>, task: string)
    requires L.UniqueRows(file)
    ensures forall i, j :: 0 <= i < j < |HeldIds(file, task)| ==> HeldIds(file, task)[i] != HeldIds(file, task)[j]
  {
    if file != [] {
      var n := |file| - 1;
      HeldDistinct(file[..n], task);
      SplitLast(file);
      HeldIdsSnoc(file[..n], file[n], task);
      if file[n].taskId == task && file[n].content.source == SOURCE
         && file[n].content.sourceId in HeldIds(file[..n], task) {
        HeldFromRows(file[..n], task, file[n].content.sourceId);
        assert false;
      }
    }
  }

  // The ledger holds another event than the stream has at that place.
  ghost predicate Mismatch(ids: seq<string>, held: seq<string>) {
    exists k :: 0 <= k < |ids| && k < |held| && ids[k] != held[k]
  }

  lemma NoPrefixMismatches(ids: seq<string>, held: seq<string>)
    requires forall i, j :: 0 <= i < j < |held| ==> held[i] != held[j]
    requires forall id :: id in held ==> id in ids
    ensures held <= ids <==> !Mismatch(ids, held)
  {
    if |held| > |ids| {
      assert held[|ids|] in ids;
      var j :| 0 <= j < |ids| && ids[j] == held[|ids|];
      assert ids[j] != held[j];
    }
  }

  lemma HeldAreStreamIds(s: Shadow, task: string)
    requires Clean(s)
    ensures forall id :: id in HeldIds(s.file, task) ==> id in Ids(Stream(s, task))
  {
    var rows := HarnessRows(L.TaskLog(s.file, task));
    RowsOwned(s.file, task);
    forall id | id in HeldIds(s.file, task) ensures id in Ids(Stream(s, task)) {
      var k :| 0 <= k < |rows| && RowIds(rows)[k] == id;
      assert rows[k] in rows;
      var i :| 0 <= i < |Stream(s, task)| && IsImportOf(rows[k], Stream(s, task)[i]);
      assert Ids(Stream(s, task))[i] == id;
    }
  }

  lemma OrderLostIff(s: Shadow, task: string)
    requires Clean(s)
    ensures InOrder(s, task) <==> !Mismatch(Ids(Stream(s, task)), HeldIds(s.file, task))
  {
    HeldDistinct(s.file, task);
    HeldAreStreamIds(s, task);
    NoPrefixMismatches(Ids(Stream(s, task)), HeldIds(s.file, task));
  }

  // Any step of the store: appends with fresh ids, crashed or not, reads, and rows of other sources.
  ghost predicate Possible(s: Shadow, step: Step) {
    match step
    case Append(r, _) => FreshId(s, r)
    case Read(_) => true
    case Foreign(q) => q.content.source != SOURCE && !(PREFIX <= L.KeyOf(q))
  }

  // Streams and held ids only grow.
  ghost predicate Extends(s: Shadow, s': Shadow) {
    && Clean(s')
    && forall t :: Ids(Stream(s, t)) <= Ids(Stream(s', t)) && HeldIds(s.file, t) <= HeldIds(s'.file, t)
  }

  lemma OperationalWriteExtends(s: Shadow, r: Request)
    requires Clean(s) && FreshId(s, r)
    ensures Extends(s, WithStream(s, r.taskId, StreamAppend(Stream(s, r.taskId), r).0))
  {
    var s1 := WithStream(s, r.taskId, StreamAppend(Stream(s, r.taskId), r).0);
    StreamAppendKeeps(s, r);
    forall t ensures Ids(Stream(s, t)) <= Ids(Stream(s1, t)) {
      IdsPrefix(Stream(s, t), Stream(s1, t));
    }
  }

  lemma ImportGrowsHeld(s: Shadow, task: string, n: nat, t: string)
    requires CleanStreams(s) && CleanFile(s, s.file) && n < |Stream(s, task)|
    ensures HeldIds(s.file, t) <= HeldIds(L.FileAppend(s.file, ImportRequest(Stream(s, task)[n])).0, t)
  {
    if L.Parses(s.file) {
      ImportHeld(s, task, s.file, n, t);
    }
  }

  lemma ImportExtends(s: Shadow, task: string, n: nat, file: seq<L.Event>)
    requires Clean(s) && n < |Stream(s, task)|
    requires file == L.FileAppend(s.file, ImportRequest(Stream(s, task)[n])).0
    ensures Extends(s, s.(file := file))
  {
    assert CleanFile(s, file) by {
      ImportWorks(s, s.file, task, n);
    }
    CleanWithFile(s, file);
    forall t ensures HeldIds(s.file, t) <= HeldIds(file, t) {
      ImportGrowsHeld(s, task, n, t);
    }
    assert forall t :: Stream(s.(file := file), t) == Stream(s, t);
  }

  lemma AppendExtends(s: Shadow, r: Request, crash: bool)
    requires Clean(s) && FreshId(s, r)
    ensures Extends(s, ShadowAppend(s, r, crash).0)
  {
    var stream := Stream(s, r.taskId);
    var s1 := WithStream(s, r.taskId, StreamAppend(stream, r).0);
    OperationalWriteExtends(s, r);
    if !crash && StreamAppend(stream, r).1.Ok? {
      assert Stream(s1, r.taskId) == StreamAppend(stream, r).0;
      assert Stream(s1, r.taskId)[Target(stream, r)] == StreamAppend(stream, r).1.value;
      ImportExtends(s1, r.taskId, Target(stream, r), ShadowAppend(s, r, crash).0.file);
    }
  }

  lemma RepairExtends(s: Shadow, task: string)
    requires Clean(s) && Legible(Stream(s, task)) && L.Parses(s.file)
    ensures Extends(s, ShadowRead(s, task, 0).0)
  {
    var stream := Stream(s, task);
    assert stream[..|stream|] == stream && Ids(stream)[..|stream|] == Ids(stream);
    RepairAppendsMissing(s, task, |stream|);
    var s' := ShadowRead(s, task, 0).0;
    CleanWithFile(s, s'.file);
    forall t ensures Ids(Stream(s, t)) <= Ids(Stream(s', t)) && HeldIds(s.file, t) <= HeldIds(s'.file, t) {
      assert Stream(s', t) == Stream(s, t);
    }
  }

  lemma ReadExtends(s: Shadow, task: string)
    requires Clean(s)
    ensures Extends(s, ShadowRead(s, task, 0).0)
  {
    if !L.Parses(s.file) {
      RepairBroken(s.file, Stream(s, task));
    } else if Legible(Stream(s, task)) {
      RepairExtends(s, task);
    }
  }

  lemma StepExtends(s: Shadow, step: Step)
    requires Clean(s) && Possible(s, step)
    ensures Extends(s, Perform(s, step))
  {
    match step {
      case Append(r, crash) => AppendExtends(s, r, crash);
      case Read(task) => ReadExtends(s, task);
      case Foreign(q) =>
        ForeignAppendInvisible(s, q);
        assert forall t :: Stream(Perform(s, step), t) == Stream(s, t);
    }
  }

  ghost predicate PossibleRun(s: Shadow, steps: seq<Step>)
    decreases steps
  {
    steps == [] || (Possible(s, steps[0]) && PossibleRun(Perform(s, steps[0]), steps[1..]))
  }

  // Lost order is lost for good: after any further steps, repairs included, no read of the task is its stream.
  lemma {:induction false} OutOfOrderForGood(s: Shadow, steps: seq<Step>, task: string)
    requires Clean(s) && PossibleRun(s, steps) && !InOrder(s, task)
    requires var s' := PerformAll(s, steps);
             |L.TaskLog(Repair(s'.file, Stream(s', task)).0, task)| <= 100_000
    ensures var s' := PerformAll(s, steps);
            !InOrder(s', task) && ShadowRead(s', task, 0).1 != Ok(Stream(s', task))
    decreases steps
  {
    if steps == [] {
      ReadIsStreamIff(s, task);
    } else {
      StepExtends(s, steps[0]);
      LostOrderStays(s, Perform(s, steps[0]), task);
      OutOfOrderForGood(Perform(s, steps[0]), steps[1..], task);
    }
  }

  lemma LostOrderStays(s: Shadow, s': Shadow, task: string)
    requires Clean(s) && Extends(s, s') && !InOrder(s, task)
    ensures !InOrder(s', task)
  {
    OrderLostIff(s, task);
    OrderLostIff(s', task);
    var ids, held := Ids(Stream(s, task)), HeldIds(s.file, task);
    var ids', held' := Ids(Stream(s', task)), HeldIds(s'.file, task);
    var k :| 0 <= k < |ids| && k < |held| && ids[k] != held[k];
    assert ids'[k] == ids[k] && held'[k] == held[k];
  }

  const EMPTY := Shadow(map[], [])

  lemma EmptyIsClean()
    ensures Clean(EMPTY) && forall t :: Stream(EMPTY, t) == []
  {
  }

  // One append that dies between its two writes.
  lemma AfterCrash(r: Request)
    requires r.key.None? && WholeRequest(r)
    ensures var s := ShadowAppend(EMPTY, r, true).0;
            && Clean(s) && InOrder(s, r.taskId) && HeldIds(s.file, r.taskId) == [] && s.file == []
            && forall t :: Stream(s, t) == if t == r.taskId then [Created([], r)] else []
  {
    EmptyIsClean();
    OperationalWriteKeepsOrder(EMPTY, r);
    assert InOrder(EMPTY, r.taskId);
  }

  // And another event of the task appended in full.
  lemma CrashThenAppend(first: Request, second: Request)
    requires first.taskId == second.taskId && first.id != second.id && first.key.None? && second.key.None?
    requires WholeRequest(first)
    ensures var s := ShadowAppend(ShadowAppend(EMPTY, first, true).0, second, false).0;
            Clean(s) && |Stream(s, first.taskId)| == 2 && !InOrder(s, first.taskId)
  {
    var s := ShadowAppend(EMPTY, first, true).0;
    AfterCrash(first);
    BehindByOne(s, first, second);
  }

  lemma BehindByOne(s: Shadow, first: Request, second: Request)
    requires Clean(s) && InOrder(s, first.taskId) && HeldIds(s.file, first.taskId) == [] && s.file == []
    requires forall t :: Stream(s, t) == if t == first.taskId then [Created([], first)] else []
    requires first.taskId == second.taskId && first.id != second.id && first.key.None? && second.key.None?
    requires WholeRequest(first)
    ensures var s' := ShadowAppend(s, second, false).0;
            Clean(s') && |Stream(s', first.taskId)| == 2 && !InOrder(s', first.taskId)
  {
    AppendKeepsOrderIff(s, second, false);
    assert Target(Stream(s, second.taskId), second) == 1;
  }

  // ---------------------------------------------------------------- a separator in a text

  // One append of such a text to empty stores: it is accepted, and then the task's own stream raises in both stores,
  // and every other task in this one only.
  lemma SeparatorLosesEveryTask(r: Request, task: string)
    requires !WholeRequest(r) && task != r.taskId
    ensures var (s, out) := ShadowAppend(EMPTY, r, false);
            && out.Ok? && StreamRead(Stream(s, r.taskId), 0).Err?
            && StreamRead(Stream(s, task), 0) == Ok([])
            && ShadowRead(s, r.taskId, 0).1.Err? && ShadowRead(s, task, 0).1.Err?
  {
    var (s, out) := ShadowAppend(EMPTY, r, false);
    var e := Created([], r);
    EmptyIsClean();
    assert [] + [e] == [e] && e in [e];
    assert Stream(s, r.taskId) == [e] && Stream(s, task) == [] && !WholeEvent(e);
    ImportIsWhole(e);
    L.AppendParsesIff([], ImportRequest(e));
    assert L.ScanAppend([], ImportRequest(e)).1.Ok?;
    assert !L.Parses(s.file);
    RepairBroken(s.file, Stream(s, task));
  }
}
