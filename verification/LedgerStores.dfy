// The stores of harness/ledger and harness/state as objects that change in place; every method is proved equal to
// the specification in modules Ledger and ShadowStore.
module LedgerStores {
  import opened Wrappers
  import L = Ledger
  import S = ShadowStore

  class JsonlLedgerStore {
    var file: seq<L.Event>

    constructor ()
      ensures file == []
    {
      file := [];
    }

    // Parse the file line by line; the first line that is not an event raises.
    method All() returns (out: Result<seq<L.Event>, ()>)
      ensures out == if L.Parses(file) then Ok(file) else Err(())
    {
      var events: seq<L.Event> := [];
      for i := 0 to |file|
        invariant events == file[..i] && L.Parses(events)
      {
        if !L.WholeEvent(file[i]) {
          assert file[i] in file;
          return Err(());
        }
        ParsesSnoc(events, file[i]);
        events := events + [file[i]];
      }
      assert file[..|file|] == file;
      return Ok(events);
    }

    method Append(r: L.Request) returns (out: Result<L.Event, ()>)
      modifies this
      ensures (file, out) == L.FileAppend(old(file), r)
    {
      var events := All();
      if events.Err? {
        return Err(());
      }
      out := Insert(events.value, r);
    }

    method Insert(events: seq<L.Event>, r: L.Request) returns (out: Result<L.Event, ()>)
      requires events == file
      modifies this
      ensures (file, out) == L.ScanAppend(events, r)
    {
      var i := 0;
      while i < |events|
        invariant i <= |events| && L.Scan(events, r) == L.Scan(events[i..], r)
      {
        var previous := events[i];
        if L.SameSource(previous, r) && !L.SameKey(previous, r) {
          return Err(());
        }
        if L.SameKey(previous, r) {
          if previous.content != r.content {
            return Err(());
          }
          return Ok(previous);
        }
        i := i + 1;
      }
      var taskEvents := L.TaskLog(events, r.taskId);
      var sequence := if taskEvents != [] then taskEvents[|taskEvents| - 1].sequence + 1 else 1;
      var event := L.NewEvent(r, sequence);
      file := file + [event];
      out := Ok(event);
    }

    method Read(q: L.Query) returns (out: Result<seq<L.Event>, ()>)
      ensures out == L.FileRead(file, q)
    {
      var events := All();
      if events.Err? {
        return Err(());
      }
      var selected := [];
      for i := 0 to |events.value|
        invariant selected == L.FileSelect(events.value[..i], q)
      {
        var event := events.value[i];
        assert events.value[..i + 1][..i] == events.value[..i];
        if event.taskId == q.taskId && event.sequence > Max(q.after, 0)
           && (q.kinds == {} || event.content.kind in q.kinds) {
          selected := selected + [event];
        }
      }
      assert events.value[..|events.value|] == events.value;
      return Ok(L.Limited(selected, q.limit));
    }

    method EraseTask(taskId: string) returns (out: Result<nat, ()>)
      modifies this
      ensures (file, out) == L.FileErase(old(file), taskId)
    {
      var events := All();
      if events.Err? {
        return Err(());
      }
      var kept := L.DropTask(events.value, taskId);
      EraseCounts(events.value, taskId);
      var removed := |events.value| - |kept|;
      if removed == 0 {
        NothingErased(events.value, taskId);
        return Ok(0);
      }
      file := kept;
      out := Ok(removed);
    }
  }

  lemma ParsesSnoc(file: seq<L.Event>, e: L.Event)
    requires L.Parses(file) && L.WholeEvent(e)
    ensures L.Parses(file + [e])
  {
  }

  lemma {:induction false} EraseCounts(file: seq<L.Event>, taskId: string)
    ensures |L.DropTask(file, taskId)| + |L.TaskLog(file, taskId)| == |file|
  {
    if file != [] {
      var n := |file| - 1;
      EraseCounts(file[..n], taskId);
      var own := file[n].taskId == taskId;
      assert |L.DropTask(file, taskId)| == |L.DropTask(file[..n], taskId)| + (if own then 0 else 1);
      assert |L.TaskLog(file, taskId)| == |L.TaskLog(file[..n], taskId)| + (if own then 1 else 0);
    }
  }

  lemma {:induction false} NothingErased(file: seq<L.Event>, taskId: string)
    requires |L.DropTask(file, taskId)| == |file|
    ensures L.DropTask(file, taskId) == file
  {
    if file != [] {
      var n := |file| - 1;
      EraseCounts(file[..n], taskId);
      assert file[n].taskId != taskId;
      NothingErased(file[..n], taskId);
      SplitLast(file);
    }
  }

  class DuckDbLedgerStore {
    var rows: set<L.Event>

    constructor ()
      ensures rows == {}
    {
      rows := {};
    }

    // SELECT COALESCE(MAX(sequence), 0)
    method MaxSequence(taskId: string) returns (m: nat)
      ensures L.IsMaxSequence(rows, taskId, m)
    {
      m := 0;
      var todo := rows;
      while todo != {}
        invariant todo <= rows
        invariant forall e :: e in rows && e !in todo && e.taskId == taskId ==> e.sequence <= m
        invariant m == 0 || exists e :: e in rows && e.taskId == taskId && e.sequence == m
        decreases todo
      {
        var e :| e in todo;
        todo := todo - {e};
        if e.taskId == taskId && e.sequence > m {
          m := e.sequence;
        }
      }
    }

    // BEGIN; SELECT by key; INSERT; COMMIT, with ROLLBACK on any failure.
    method Append(r: L.Request) returns (out: Result<L.Event, ()>)
      modifies this
      ensures L.TableAppend(old(rows), r, rows, out)
    {
      var begin := rows;
      if exists e :: e in rows && L.SameKey(e, r) {
        var previous :| previous in rows && L.SameKey(previous, r);
        assert L.KeyRow(rows, r, previous);
        out := if previous.content != r.content then Err(()) else Ok(previous);
        return;
      }
      assert forall e :: !L.KeyRow(rows, r, e);
      var m := MaxSequence(r.taskId);
      var event := L.NewEvent(r, m + 1);
      rows := rows + {event};
      if exists row :: row in begin && L.Violates(event, row) {
        rows := begin;
        out := Err(());
      } else {
        out := Ok(event);
      }
    }

    method EraseTask(taskId: string) returns (removed: nat)
      modifies this
      ensures rows == L.TableErase(old(rows), taskId)
      ensures removed == |set e | e in old(rows) && e.taskId == taskId|
    {
      removed := |set e | e in rows && e.taskId == taskId|;
      rows := set e | e in rows && e.taskId != taskId;
    }
  }

  class JsonlEventStore {
    var streams: map<string, seq<S.HarnessEvent>>

    constructor ()
      ensures streams == map[]
    {
      streams := map[];
    }

    function Stream(task: string): seq<S.HarnessEvent>
      reads this
    {
      if task in streams then streams[task] else []
    }

    // Parse the task's file line by line; the first line that is not an event raises.
    method Read(task: string, after: int) returns (out: Result<seq<S.HarnessEvent>, ()>)
      ensures out == S.StreamRead(Stream(task), after)
    {
      var lines := Stream(task);
      var events := [];
      for i := 0 to |lines|
        invariant events == S.After(lines[..i], after) && S.Legible(lines[..i])
      {
        if !S.WholeEvent(lines[i]) {
          assert lines[i] in lines;
          return Err(());
        }
        LegibleSnoc(lines, i);
        if lines[i].sequence > after {
          events := events + [lines[i]];
        }
      }
      assert lines[..|lines|] == lines;
      return Ok(events);
    }

    // A task's file holds that task's events numbered from 1.
    ghost predicate Valid()
      reads this
    {
      forall t: string, i: nat :: i < |Stream(t)| ==> Stream(t)[i].sequence == i + 1
    }

    method Append(r: S.Request) returns (out: Result<S.HarnessEvent, ()>)
      requires Valid()
      modifies this
      ensures Valid()
      ensures (Stream(r.taskId), out) == S.StreamAppend(old(Stream(r.taskId)), r)
      ensures streams == old(streams) || streams == old(streams)[r.taskId := Stream(r.taskId)]
    {
      var read := Read(r.taskId, 0);
      if read.Err? {
        return Err(());
      }
      S.AfterZero(Stream(r.taskId));
      var existing := read.value;
      var found := FindKey(existing, r.key);
      if found.Some? {
        var event := existing[found.value];
        if event.kind != r.kind || event.payload != r.payload {
          return Err(());
        }
        return Ok(event);
      }
      var event := S.Created(existing, r);
      Write(existing, event);
      out := Ok(event);
    }

    // The scan for an event already under the key.
    method FindKey(existing: seq<S.HarnessEvent>, key: Option<string>) returns (found: Option<nat>)
      ensures found == if key.Some? then S.FindKey(existing, key.value) else None
    {
      if key.None? {
        return None;
      }
      var i := 0;
      while i < |existing|
        invariant i <= |existing| && forall k :: 0 <= k < i ==> existing[k].key != key
      {
        if existing[i].key == key {
          FirstWithKey(existing, key.value, i);
          return Some(i);
        }
        i := i + 1;
      }
      return None;
    }

    method Write(existing: seq<S.HarnessEvent>, event: S.HarnessEvent)
      requires Valid() && existing == Stream(event.taskId) && event.sequence == |existing| + 1
      modifies this
      ensures Valid() && streams == old(streams)[event.taskId := existing + [event]]
    {
      streams := streams[event.taskId := existing + [event]];
      forall t: string, i: nat | i < |Stream(t)| ensures Stream(t)[i].sequence == i + 1 {
        assert Stream(t) == if t == event.taskId then existing + [event] else old(Stream(t));
      }
    }
  }

  lemma LegibleSnoc(lines: seq<S.HarnessEvent>, i: nat)
    requires i < |lines| && S.Legible(lines[..i]) && S.WholeEvent(lines[i])
    ensures S.Legible(lines[..i + 1]) && lines[..i + 1][..i] == lines[..i]
  {
    assert lines[..i + 1] == lines[..i] + [lines[i]];
  }

  lemma {:induction false} FirstWithKey(stream: seq<S.HarnessEvent>, key: string, i: nat)
    requires i < |stream| && stream[i].key == Some(key) && forall k :: 0 <= k < i ==> stream[k].key != Some(key)
    ensures S.FindKey(stream, key) == Some(i)
  {
    if i > 0 {
      FirstWithKey(stream[1..], key, i - 1);
    }
  }

  class LedgerBackedEventStore {
    const operational: JsonlEventStore
    const ledger: JsonlLedgerStore

    constructor (operational: JsonlEventStore, ledger: JsonlLedgerStore)
      ensures this.operational == operational && this.ledger == ledger
    {
      this.operational := operational;
      this.ledger := ledger;
    }

    ghost predicate Valid()
      reads operational
    {
      operational.Valid()
    }

    ghost function State(): S.Shadow
      reads operational, ledger
    {
      S.Shadow(operational.streams, ledger.file)
    }

    // Import every operational event, in order; the first that raises stops the read.
    method RepairLedger(events: seq<S.HarnessEvent>) returns (ok: bool)
      modifies ledger
      ensures (ledger.file, ok) == S.Repair(old(ledger.file), events)
    {
      ghost var before := ledger.file;
      for i := 0 to |events|
        invariant (ledger.file, true) == S.Repair(before, events[..i])
      {
        assert events[..i + 1][..i] == events[..i];
        var imported := ledger.Append(S.ImportRequest(events[i]));
        if imported.Err? {
          RepairStops(before, events, i + 1);
          return false;
        }
      }
      assert events[..|events|] == events;
      ok := true;
    }

    method Read(task: string, after: int) returns (out: Result<seq<S.HarnessEvent>, ()>)
      requires Valid()
      modifies ledger
      ensures Valid() && (State(), out) == S.ShadowRead(old(State()), task, after)
    {
      var read := operational.Read(task, 0);
      if read.Err? {
        return Err(());
      }
      S.AfterZero(operational.Stream(task));
      assert read.value == S.Stream(old(State()), task);
      var ok := RepairLedger(read.value);
      if !ok {
        return Err(());
      }
      var rows := ledger.Read(S.Query(task));
      if rows.Err? {
        return Err(());
      }
      out := Ok(S.After(S.DecodeAll(S.HarnessRows(rows.value)), after));
    }

    method Append(r: S.Request) returns (out: Result<S.HarnessEvent, ()>)
      requires Valid()
      modifies operational, ledger
      ensures Valid()
      ensures S.SameState((State(), out), S.ShadowAppend(old(State()), r, false))
    {
      out := operational.Append(r);
      if out.Err? {
        return;
      }
      var imported := ledger.Append(S.ImportRequest(out.value));
      if imported.Err? {
        out := Err(());
      }
    }
  }

  // Once an import raises, nothing after it is imported.
  lemma {:induction false} RepairStops(file: seq<L.Event>, events: seq<S.HarnessEvent>, k: nat)
    requires k <= |events| && !S.Repair(file, events[..k]).1
    ensures S.Repair(file, events) == S.Repair(file, events[..k])
  {
    if k < |events| {
      assert events[..|events| - 1][..k] == events[..k];
      RepairStops(file, events[..|events| - 1], k);
    } else {
      assert events[..k] == events;
    }
  }
}
