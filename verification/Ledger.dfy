// harness/ledger: one append/read/erase contract, stored as an ordered JSONL file or as an unordered constrained
// table, and the proof that callers cannot tell the two apart.
module Ledger {
  import opened Wrappers

  // The fields an idempotent retry must repeat, and those it need not.
  datatype Content = Content(
    source: string, sourceId: string, kind: string, status: string, effect: string, payload: string)

  datatype Stamp = Stamp(observedAt: int, recordedAt: int, correlationId: Option<string>, parentId: Option<string>)

  datatype Event = Event(
    eventId: string, taskId: string, sequence: nat, key: string, content: Content, stamp: Stamp)

  datatype Request = Request(taskId: string, content: Content, stamp: Stamp, key: Option<string>)

  datatype Query = Query(taskId: string, after: int, kinds: set<string>, limit: int)

  function KeyOf(r: Request): string {
    OrElse(r.key, r.content.source + ":" + r.content.sourceId)
  }

  // Preimage of the SHA-256 event id; the digest is taken to be injective.
  function EventIdOf(taskId: string, key: string): string { taskId + "\0" + key }

  function NewEvent(r: Request, sequence: nat): Event {
    Event(EventIdOf(r.taskId, KeyOf(r)), r.taskId, sequence, KeyOf(r), r.content, r.stamp)
  }

  predicate SameSource(e: Event, r: Request) {
    e.content.source == r.content.source && e.content.sourceId == r.content.sourceId
  }

  predicate SameKey(e: Event, r: Request) { e.taskId == r.taskId && e.key == KeyOf(r) }

  // ---------------------------------------------------------------- the JSONL file

  // The characters that end a line for the reader of the file and yet stand unescaped in the JSON its writer puts
  // there; every other line end is below U+0020 and escaped.
  predicate Separates(c: char) { c in {'\U{0085}', '\U{2028}', '\U{2029}'} }

  predicate OneLine(text: string) { forall c :: c in text ==> !Separates(c) }

  predicate OneLineOr(text: Option<string>) { text.Some? ==> OneLine(text.value) }

  // The line of an event is read back as one line, and so as the event. Any other line falls apart inside a JSON
  // string, and its first piece is no JSON.
  predicate Whole(taskId: string, key: string, content: Content, stamp: Stamp) {
    && OneLine(taskId) && OneLine(key) && OneLineOr(stamp.correlationId) && OneLineOr(stamp.parentId)
    && OneLine(content.source) && OneLine(content.sourceId) && OneLine(content.kind) && OneLine(content.status)
    && OneLine(content.effect) && OneLine(content.payload)
  }

  predicate WholeEvent(e: Event) { Whole(e.taskId, e.key, e.content, e.stamp) }

  predicate WholeRequest(r: Request) { Whole(r.taskId, KeyOf(r), r.content, r.stamp) }

  // The characters at which Python splits lines; a carriage return before a newline does not occur in what is written.
  predicate EndsLine(c: char) {
    c in {'\n', '\r', '\U{000B}', '\U{000C}', '\U{001C}', '\U{001D}', '\U{001E}'} || Separates(c)
  }

  // The line ends by their code points; the writer's JSON escapes those below U+0020.
  lemma SeparatorsAre(c: char)
    ensures EndsLine(c)
            <==> 0x0A <= c as int <= 0x0D || 0x1C <= c as int <= 0x1E || c as int in {0x85, 0x2028, 0x2029}
    ensures Separates(c) <==> EndsLine(c) && c as int >= 0x20
  {
  }

  function LineEnd(text: string): (n: nat)
    ensures n <= |text| && (n < |text| ==> EndsLine(text[n])) && forall i :: 0 <= i < n ==> !EndsLine(text[i])
  {
    if text == "" || EndsLine(text[0]) then 0 else 1 + LineEnd(text[1..])
  }

  // str.splitlines
  function SplitLines(text: string): seq<string> {
    if text == "" then []
    else
      var n := LineEnd(text);
      [text[..n]] + (if n == |text| then [] else SplitLines(text[n + 1..]))
  }

  function FileText(file: seq<Event>, json: Event -> string): string {
    if file == [] then "" else json(file[0]) + "\n" + FileText(file[1..], json)
  }

  function Lines(file: seq<Event>, json: Event -> string): seq<string> {
    if file == [] then [] else [json(file[0])] + Lines(file[1..], json)
  }

  // Every operation starts by parsing every line.
  predicate Parses(file: seq<Event>) { forall e :: e in file ==> WholeEvent(e) }

  function TaskLog(file: seq<Event>, taskId: string): seq<Event> {
    if file == [] then []
    else
      var last := file[|file| - 1];
      TaskLog(file[..|file| - 1], taskId) + (if last.taskId == taskId then [last] else [])
  }

  // What one stored event says about a request: nothing, a conflict, or "already there".
  function Verdict(e: Event, r: Request): Option<Result<Event, ()>> {
    if SameSource(e, r) && !SameKey(e, r) then Some(Err(()))
    else if SameKey(e, r) then Some(if e.content == r.content then Ok(e) else Err(()))
    else None
  }

  // The scan in file order: the first event that has something to say decides.
  function Scan(file: seq<Event>, r: Request): Option<Result<Event, ()>> {
    if file == [] then None
    else if Verdict(file[0], r).Some? then Verdict(file[0], r)
    else Scan(file[1..], r)
  }

  function NextSequence(log: seq<Event>): nat {
    if log == [] then 1 else log[|log| - 1].sequence + 1
  }

  function ScanAppend(file: seq<Event>, r: Request): (seq<Event>, Result<Event, ()>) {
    var found := Scan(file, r);
    if found.Some? then (file, found.value)
    else
      var e := NewEvent(r, NextSequence(TaskLog(file, r.taskId)));
      (file + [e], Ok(e))
  }

  predicate Selected(e: Event, q: Query) {
    e.taskId == q.taskId && e.sequence > Max(q.after, 0) && (q.kinds == {} || e.content.kind in q.kinds)
  }

  function FileSelect(file: seq<Event>, q: Query): seq<Event> {
    if file == [] then []
    else
      var last := file[|file| - 1];
      FileSelect(file[..|file| - 1], q) + (if Selected(last, q) then [last] else [])
  }

  function Limited(events: seq<Event>, limit: int): seq<Event> {
    if |events| <= Max(limit, 0) then events else events[..Max(limit, 0)]
  }

  function SelectRows(file: seq<Event>, q: Query): seq<Event> { Limited(FileSelect(file, q), q.limit) }

  function DropTask(file: seq<Event>, taskId: string): seq<Event> {
    if file == [] then []
    else
      var last := file[|file| - 1];
      DropTask(file[..|file| - 1], taskId) + (if last.taskId == taskId then [] else [last])
  }

  // Every text that an event holds and does not compute.
  function AllText(e: Event): string {
    e.taskId + e.key + OrElse(e.stamp.correlationId, "") + OrElse(e.stamp.parentId, "")
    + e.content.source + e.content.sourceId + e.content.kind + e.content.status + e.content.effect + e.content.payload
  }

  // The writer's JSON escapes what is below U+0020, and holds any other line end exactly when some text of the event
  // does.
  ghost predicate Escapes(json: Event -> string) {
    forall e, c: char :: EndsLine(c) ==> (c in json(e) <==> c as int >= 0x20 && c in AllText(e))
  }

  lemma ConcatOneLine(a: string, b: string)
    ensures OneLine(a + b) <==> OneLine(a) && OneLine(b)
  {
    assert forall c :: c in a + b <==> c in a || c in b;
  }

  lemma WholeIsOneLine(e: Event)
    ensures WholeEvent(e) <==> OneLine(AllText(e))
  {
    var a := e.taskId + e.key;
    var b := a + OrElse(e.stamp.correlationId, "") + OrElse(e.stamp.parentId, "");
    var d := b + e.content.source + e.content.sourceId + e.content.kind;
    ConcatOneLine(e.taskId, e.key);
    ConcatOneLine(a, OrElse(e.stamp.correlationId, ""));
    ConcatOneLine(a + OrElse(e.stamp.correlationId, ""), OrElse(e.stamp.parentId, ""));
    ConcatOneLine(b, e.content.source);
    ConcatOneLine(b + e.content.source, e.content.sourceId);
    ConcatOneLine(b + e.content.source + e.content.sourceId, e.content.kind);
    ConcatOneLine(d, e.content.status);
    ConcatOneLine(d + e.content.status, e.content.effect);
    ConcatOneLine(d + e.content.status + e.content.effect, e.content.payload);
  }

  // What is written on one line.
  lemma EscapesMeans(json: Event -> string, e: Event)
    requires Escapes(json)
    ensures (forall c :: c in json(e) && EndsLine(c) ==> Separates(c)) && (OneLine(json(e)) <==> WholeEvent(e))
  {
    WholeIsOneLine(e);
    forall c ensures Separates(c) <==> EndsLine(c) && c as int >= 0x20 {
      SeparatorsAre(c);
    }
    forall c | EndsLine(c) ensures c in json(e) <==> Separates(c) && c in AllText(e) {
    }
  }

  // The lines a reader finds are those the writer put there exactly when the file parses.
  lemma {:induction false} LinesAreEventsIff(file: seq<Event>, json: Event -> string)
    requires Escapes(json)
    ensures SplitLines(FileText(file, json)) == Lines(file, json) <==> Parses(file)
  {
    if file != [] {
      var line, rest := json(file[0]), FileText(file[1..], json);
      LinesAreEventsIff(file[1..], json);
      EscapesMeans(json, file[0]);
      FirstLine(line, rest);
      assert file == [file[0]] + file[1..];
      var split := SplitLines(line + "\n" + rest);
      assert split == Lines(file, json) <==> split[0] == line && split[1..] == Lines(file[1..], json);
    }
  }

  lemma FirstLine(line: string, rest: string)
    requires forall c :: c in line && EndsLine(c) ==> Separates(c)
    ensures var split := SplitLines(line + "\n" + rest);
            && split != [] && (split[0] == line <==> OneLine(line))
            && (OneLine(line) ==> split[1..] == SplitLines(rest))
  {
    var text := line + "\n" + rest;
    var n := LineEnd(text);
    assert text[|line|] == '\n';
    assert forall i :: 0 <= i < |line| ==> text[i] == line[i] && line[i] in line;
    if OneLine(line) {
      assert n == |line|;
      assert text[..n] == line && text[n + 1..] == rest;
    } else {
      var c :| c in line && Separates(c);
      var i :| 0 <= i < |line| && line[i] == c;
      assert n <= i;
    }
  }

  function FileAppend(file: seq<Event>, r: Request): (seq<Event>, Result<Event, ()>) {
    if Parses(file) then ScanAppend(file, r) else (file, Err(()))
  }

  function FileRead(file: seq<Event>, q: Query): Result<seq<Event>, ()> {
    if Parses(file) then Ok(SelectRows(file, q)) else Err(())
  }

  function FileErase(file: seq<Event>, taskId: string): (seq<Event>, Result<nat, ()>) {
    if Parses(file) then (DropTask(file, taskId), Ok(|TaskLog(file, taskId)|)) else (file, Err(()))
  }

  // ---------------------------------------------------------------- the invariant of every reachable file

  ghost predicate Numbered(file: seq<Event>) {
    forall task: string, k: nat :: k < |TaskLog(file, task)| ==>
      TaskLog(file, task)[k].sequence == k + 1 && TaskLog(file, task)[k].taskId == task
  }

  ghost predicate UniqueRows(file: seq<Event>) {
    forall i, j :: 0 <= i < j < |file| ==>
      && (file[i].taskId != file[j].taskId || file[i].key != file[j].key)
      && (file[i].content.source != file[j].content.source || file[i].content.sourceId != file[j].content.sourceId)
  }

  ghost predicate GoodFile(file: seq<Event>) {
    && Numbered(file) && UniqueRows(file)
    && forall e :: e in file ==> e.eventId == EventIdOf(e.taskId, e.key)
  }

  lemma TaskLogSnoc(file: seq<Event>, e: Event, task: string)
    ensures TaskLog(file + [e], task) == TaskLog(file, task) + (if e.taskId == task then [e] else [])
  {
    assert (file + [e])[..|file|] == file;
  }

  lemma {:induction false} TaskLogMembers(file: seq<Event>, task: string)
    ensures forall e :: e in TaskLog(file, task) <==> e in file && e.taskId == task
  {
    if file != [] {
      TaskLogMembers(file[..|file| - 1], task);
      assert file == file[..|file| - 1] + [file[|file| - 1]];
    }
  }

  lemma {:induction false} ScanNone(file: seq<Event>, r: Request)
    ensures Scan(file, r).None? <==> forall e :: e in file ==> !SameSource(e, r) && !SameKey(e, r)
    ensures Scan(file, r).Some? && Scan(file, r).value.Ok? ==>
      var e := Scan(file, r).value.value; e in file && SameKey(e, r) && e.content == r.content
    ensures Scan(file, r).Some? && Scan(file, r).value.Err? ==> Scan(file, r).value == Err(())
  {
    if file != [] {
      ScanNone(file[1..], r);
      assert file == [file[0]] + file[1..];
    }
  }

  lemma UniqueTail(file: seq<Event>)
    requires UniqueRows(file) && file != []
    ensures UniqueRows(file[1..])
    ensures forall e :: e in file[1..] ==>
      && (e.taskId != file[0].taskId || e.key != file[0].key)
      && (e.content.source != file[0].content.source || e.content.sourceId != file[0].content.sourceId)
  {
    forall i, j | 0 <= i < j < |file[1..]|
      ensures file[1..][i] == file[i + 1] && file[1..][j] == file[j + 1]
    {
    }
    forall e | e in file[1..] ensures exists j :: 0 < j < |file| && file[j] == e {
      var j :| 0 <= j < |file[1..]| && file[1..][j] == e;
      assert file[j + 1] == e;
    }
  }

  // In a file of unique rows the first verdict is the only one that matters: a stored row with this key and
  // content answers, and any other clash is a conflict.
  lemma {:induction false} ScanVerdict(file: seq<Event>, r: Request, e: Event)
    requires UniqueRows(file) && e in file && SameKey(e, r)
    ensures Scan(file, r) == Some(if e.content == r.content then Ok(e) else Err(()))
  {
    if e != file[0] {
      assert file == [file[0]] + file[1..];
      UniqueTail(file);
      assert !SameKey(file[0], r);
      assert SameSource(file[0], r) ==> !SameSource(e, r);
      ScanVerdict(file[1..], r, e);
    }
  }

  lemma NumberedSnoc(file: seq<Event>, e: Event)
    requires Numbered(file) && e.sequence == |TaskLog(file, e.taskId)| + 1
    ensures Numbered(file + [e])
  {
    forall task: string, k: nat | k < |TaskLog(file + [e], task)|
      ensures TaskLog(file + [e], task)[k].sequence == k + 1 && TaskLog(file + [e], task)[k].taskId == task
    {
      TaskLogSnoc(file, e, task);
    }
  }

  lemma AppendNumbered(file: seq<Event>, r: Request)
    requires Numbered(file)
    ensures Numbered(ScanAppend(file, r).0)
  {
    var file' := ScanAppend(file, r).0;
    if file' != file {
      assert NextSequence(TaskLog(file, r.taskId)) == |TaskLog(file, r.taskId)| + 1;
      NumberedSnoc(file, file'[|file|]);
    }
  }

  lemma AppendUnique(file: seq<Event>, r: Request)
    requires UniqueRows(file)
    ensures UniqueRows(ScanAppend(file, r).0)
  {
    var file' := ScanAppend(file, r).0;
    if file' != file {
      ScanNone(file, r);
      assert forall i :: 0 <= i < |file| ==> file[i] in file;
    }
  }

  lemma AppendKeeps(file: seq<Event>, r: Request)
    requires GoodFile(file)
    ensures GoodFile(ScanAppend(file, r).0) && file <= ScanAppend(file, r).0
    ensures GoodFile(FileAppend(file, r).0) && file <= FileAppend(file, r).0
  {
    AppendNumbered(file, r);
    AppendUnique(file, r);
  }

  lemma {:induction false} ScanIsIdempotent(file: seq<Event>, r: Request, later: seq<Event>)
    requires GoodFile(file) && GoodFile(later) && ScanAppend(file, r).1.Ok? && ScanAppend(file, r).0 <= later
    ensures ScanAppend(later, r) == (later, ScanAppend(file, r).1)
  {
    var (file', result) := ScanAppend(file, r);
    ScanNone(file, r);
    var e := result.value;
    assert e in file' && e in later;
    ScanVerdict(later, r, e);
  }

  // ---------------------------------------------------------------- what a caller is told

  predicate Given(key: string, r: Request) {
    if r.key.Some? && r.key.value != "" then key == r.key.value
    else key == r.content.source + ":" + r.content.sourceId
  }

  // A stored event that the request contradicts: its source is that of another task or key, or its key holds other
  // content.
  predicate Contradicts(e: Event, r: Request, key: string) {
    if e.taskId == r.taskId && e.key == key then e.content != r.content
    else e.content.source == r.content.source && e.content.sourceId == r.content.sourceId
  }

  predicate StandsFor(e: Event, r: Request, key: string) {
    e.taskId == r.taskId && e.key == key && e.content == r.content
  }

  // The accepted event is the one stored under its key, or else the next of its task.
  ghost predicate Stores(file: seq<Event>, r: Request, key: string, file': seq<Event>, e: Event) {
    && StandsFor(e, r, key)
    && if exists x :: x in file && x.taskId == r.taskId && x.key == key then file' == file && e in file
       else
         && file' == file + [e] && e.stamp == r.stamp && e.eventId == r.taskId + "\0" + key
         && e.sequence == |TaskLog(file, r.taskId)| + 1
  }

  lemma VerdictMeans(e: Event, r: Request, key: string)
    requires Given(key, r)
    ensures KeyOf(r) == key
    ensures Verdict(e, r) == Some(Err(())) <==> Contradicts(e, r, key)
    ensures Verdict(e, r) == Some(Ok(e)) <==> StandsFor(e, r, key)
    ensures Verdict(e, r).Some? <==> Contradicts(e, r, key) || StandsFor(e, r, key)
    ensures Verdict(e, r).Some? && Verdict(e, r).value.Ok? ==> Verdict(e, r).value.value == e
  {
  }

  // No two rows share a key of a task or a source, so the event that the scan meets first is the only one that counts.
  lemma {:induction false} ScanMeans(file: seq<Event>, r: Request, key: string)
    requires UniqueRows(file) && Given(key, r)
    ensures Scan(file, r) == Some(Err(())) <==> exists e :: e in file && Contradicts(e, r, key)
    ensures Scan(file, r).Some? && Scan(file, r).value.Ok? ==>
      Scan(file, r).value.value in file && StandsFor(Scan(file, r).value.value, r, key)
    ensures Scan(file, r).None? ==> forall e :: e in file ==> !(e.taskId == r.taskId && e.key == key)
  {
    if file != [] {
      assert file == [file[0]] + file[1..];
      UniqueTail(file);
      ScanMeans(file[1..], r, key);
      VerdictMeans(file[0], r, key);
      if StandsFor(file[0], r, key) {
        forall e | e in file ensures !Contradicts(e, r, key) {
          assert e == file[0] || e in file[1..];
        }
      }
    }
  }

  // What an append answers on any file that can arise: it raises exactly when a line does not parse or a stored event
  // contradicts the request, and nothing is stored then.
  lemma AppendAnswers(file: seq<Event>, r: Request, key: string)
    requires GoodFile(file) && Given(key, r)
    ensures var (file', out) := FileAppend(file, r);
            && (out.Err? <==> !Parses(file) || exists e :: e in file && Contradicts(e, r, key))
            && (out.Err? ==> file' == file) && (out.Ok? ==> Stores(file, r, key, file', out.value))
  {
    if Parses(file) {
      ScanMeans(file, r, key);
      var log := TaskLog(file, r.taskId);
      assert NextSequence(log) == |log| + 1;
      ScanNone(file, r);
    }
  }

  // Repeating an accepted append at any later point before an erase changes nothing, and returns the stored event
  // exactly when the file still parses.
  lemma AppendIsIdempotent(file: seq<Event>, r: Request, later: seq<Event>)
    requires GoodFile(file) && GoodFile(later) && FileAppend(file, r).1.Ok? && FileAppend(file, r).0 <= later
    ensures FileAppend(later, r).0 == later
    ensures FileAppend(later, r).1 == FileAppend(file, r).1 <==> Parses(later)
  {
    ScanIsIdempotent(file, r, later);
  }

  // An append leaves a file that parses exactly when it found one and stored no separator.
  lemma AppendParsesIff(file: seq<Event>, r: Request)
    ensures var file' := FileAppend(file, r).0;
            Parses(file') <==> Parses(file) && (file' == file || WholeRequest(r))
  {
    var file' := FileAppend(file, r).0;
    if file' != file {
      var e := file'[|file|];
      assert forall x :: x in file' <==> x in file || x == e;
      assert WholeEvent(e) <==> WholeRequest(r);
    }
  }

  lemma {:induction false} EraseLogs(file: seq<Event>, erased: string, task: string)
    ensures TaskLog(DropTask(file, erased), task) == if task == erased then [] else TaskLog(file, task)
  {
    if file != [] {
      var n := |file| - 1;
      EraseLogs(file[..n], erased, task);
      var kept := DropTask(file[..n], erased);
      if file[n].taskId != erased {
        TaskLogSnoc(kept, file[n], task);
      } else {
        assert DropTask(file, erased) == kept;
      }
    }
  }

  lemma {:induction false} EraseKeepsRows(file: seq<Event>, erased: string)
    ensures forall e :: e in DropTask(file, erased) <==> e in file && e.taskId != erased
  {
    if file != [] {
      var n := |file| - 1;
      EraseKeepsRows(file[..n], erased);
      SplitLast(file);
    }
  }

  lemma {:induction false} EraseKeepsUnique(file: seq<Event>, erased: string)
    requires UniqueRows(file)
    ensures UniqueRows(DropTask(file, erased))
  {
    if file != [] {
      var n := |file| - 1;
      EraseKeepsUnique(file[..n], erased);
      EraseKeepsRows(file[..n], erased);
      var kept := DropTask(file[..n], erased);
      forall i | 0 <= i < |kept|
        ensures kept[i].taskId != file[n].taskId || kept[i].key != file[n].key
        ensures kept[i].content.source != file[n].content.source || kept[i].content.sourceId != file[n].content.sourceId
      {
        assert kept[i] in kept;
        var j :| 0 <= j < n && file[j] == kept[i];
      }
    }
  }

  lemma EraseKeeps(file: seq<Event>, erased: string)
    requires GoodFile(file)
    ensures GoodFile(DropTask(file, erased))
  {
    EraseKeepsUnique(file, erased);
    EraseKeepsRows(file, erased);
    forall task: string, k: nat | k < |TaskLog(DropTask(file, erased), task)|
      ensures TaskLog(DropTask(file, erased), task)[k].sequence == k + 1
              && TaskLog(DropTask(file, erased), task)[k].taskId == task
    {
      EraseLogs(file, erased, task);
    }
  }

  // Reading one task looks at that task's rows only.
  lemma {:induction false} SelectFromTaskLog(file: seq<Event>, q: Query)
    ensures FileSelect(file, q) == FileSelect(TaskLog(file, q.taskId), q)
  {
    if file != [] {
      var n := |file| - 1;
      SelectFromTaskLog(file[..n], q);
      var log := TaskLog(file[..n], q.taskId);
      if file[n].taskId == q.taskId {
        assert (log + [file[n]])[..|log|] == log;
      } else {
        assert TaskLog(file, q.taskId) == log && FileSelect(file, q) == FileSelect(file[..n], q);
      }
    }
  }

  // Erasing a task leaves every other task's reads unchanged, and its own empty; on a file that does not parse it
  // raises and changes nothing, so the task that broke the file cannot be erased.
  lemma EraseIsLocal(file: seq<Event>, erased: string, q: Query)
    ensures var (file', r) := FileErase(file, erased);
            && (r.Ok? <==> Parses(file)) && (r.Err? ==> file' == file)
            && (r.Ok? ==> Parses(file')
                          && FileRead(file', q) == if q.taskId == erased then Ok([]) else FileRead(file, q))
  {
    SelectFromTaskLog(file, q);
    SelectFromTaskLog(DropTask(file, erased), q);
    EraseLogs(file, erased, q.taskId);
    EraseKeepsRows(file, erased);
  }

  // ---------------------------------------------------------------- the DuckDB table

  // SELECT * ... WHERE task_id=? AND idempotency_key=?
  ghost predicate KeyRow(table: set<Event>, r: Request, e: Event) { e in table && SameKey(e, r) }

  // COALESCE(MAX(sequence), 0) WHERE task_id=?
  ghost predicate IsMaxSequence(table: set<Event>, taskId: string, m: nat) {
    && (forall e :: e in table && e.taskId == taskId ==> e.sequence <= m)
    && (m == 0 || exists e :: e in table && e.taskId == taskId && e.sequence == m)
  }

  // PRIMARY KEY(event_id), UNIQUE(task_id, sequence), UNIQUE(task_id, idempotency_key), UNIQUE(source, source_id)
  predicate Violates(e: Event, row: Event) {
    e.eventId == row.eventId
    || (e.taskId == row.taskId && (e.sequence == row.sequence || e.key == row.key))
    || (e.content.source == row.content.source && e.content.sourceId == row.content.sourceId)
  }

  // One append transaction, by what its queries may return.
  ghost predicate TableAppend(table: set<Event>, r: Request, table': set<Event>, out: Result<Event, ()>) {
    if exists e :: KeyRow(table, r, e) then
      exists e :: KeyRow(table, r, e) && table' == table && out == if e.content == r.content then Ok(e) else Err(())
    else
      exists m: nat :: IsMaxSequence(table, r.taskId, m)
        && var e := NewEvent(r, m + 1);
           if exists row :: row in table && Violates(e, row) then table' == table && out == Err(())
           else table' == table + {e} && out == Ok(e)
  }

  ghost predicate Ascending(events: seq<Event>) {
    forall i, j :: 0 <= i < j < |events| ==> events[i].sequence < events[j].sequence
  }

  // SELECT ... ORDER BY sequence LIMIT ?
  ghost predicate TableRead(table: set<Event>, q: Query, out: seq<Event>) {
    exists all: seq<Event> ::
      && Ascending(all) && (forall e :: e in all <==> e in table && Selected(e, q)) && out == Limited(all, q.limit)
  }

  ghost function TableErase(table: set<Event>, taskId: string): set<Event> {
    set e | e in table && e.taskId != taskId
  }

  // ---------------------------------------------------------------- observational equality

  ghost predicate SameRows(file: seq<Event>, table: set<Event>) {
    GoodFile(file) && forall e :: e in file <==> e in table
  }

  // The stored row whose event id is that of the request although its task or key is not.
  predicate Collides(file: seq<Event>, r: Request) {
    exists e :: e in file && e.eventId == EventIdOf(r.taskId, KeyOf(r)) && !SameKey(e, r)
  }

  lemma MaxIsLast(file: seq<Event>, table: set<Event>, taskId: string, m: nat)
    requires SameRows(file, table) && IsMaxSequence(table, taskId, m)
    ensures m + 1 == NextSequence(TaskLog(file, taskId))
    ensures forall e :: e in file && e.taskId == taskId ==> e.sequence <= m
  {
    var log := TaskLog(file, taskId);
    TaskLogMembers(file, taskId);
    if log != [] {
      assert log[|log| - 1] in log;
      if m > 0 {
        var e :| e in table && e.taskId == taskId && e.sequence == m;
        var k: nat :| k < |log| && log[k] == e;
      }
    } else {
      assert forall e :: e in table && e.taskId == taskId ==> e in log;
    }
  }

  lemma ScanAgreesIff(file: seq<Event>, table: set<Event>, r: Request, table': set<Event>, out: Result<Event, ()>)
    requires SameRows(file, table) && TableAppend(table, r, table', out)
    ensures (out == ScanAppend(file, r).1 && SameRows(ScanAppend(file, r).0, table'))
            <==> !(Scan(file, r).None? && Collides(file, r))
    ensures out.Err? ==> out == Err(()) && table' == table
    ensures out.Err? <==> Refused(file, r)
  {
    AppendKeeps(file, r);
    ScanNone(file, r);
    if exists e :: KeyRow(table, r, e) {
      var e :| KeyRow(table, r, e) && table' == table && out == if e.content == r.content then Ok(e) else Err(());
      ScanVerdict(file, r, e);
    } else {
      var m: nat :| IsMaxSequence(table, r.taskId, m)
        && var e := NewEvent(r, m + 1);
           if exists row :: row in table && Violates(e, row) then table' == table && out == Err(())
           else table' == table + {e} && out == Ok(e);
      MaxIsLast(file, table, r.taskId, m);
      NewRowAgrees(file, table, r, m, table', out);
    }
  }

  // What the table refuses: a clash of content or source, or a new event whose id collides.
  predicate Refused(file: seq<Event>, r: Request) {
    if Scan(file, r).Some? then Scan(file, r).value.Err? else Collides(file, r)
  }

  // The two backends answer an append alike, and keep the same rows, exactly when the file parses and the event is not
  // a new one whose id collides, or the file does not parse and the table refuses too; errors are compared as errors,
  // whatever their type. An id collides only across tasks named with NUL characters.
  lemma AppendAgreesIff(file: seq<Event>, table: set<Event>, r: Request, table': set<Event>, out: Result<Event, ()>)
    requires SameRows(file, table) && TableAppend(table, r, table', out)
    ensures (out == FileAppend(file, r).1 && SameRows(FileAppend(file, r).0, table'))
            <==> if Parses(file) then !(Scan(file, r).None? && Collides(file, r)) else Refused(file, r)
  {
    ScanAgreesIff(file, table, r, table', out);
  }

  lemma NewRowAgrees(
    file: seq<Event>, table: set<Event>, r: Request, m: nat, table': set<Event>, out: Result<Event, ()>)
    requires SameRows(file, table) && !exists e :: KeyRow(table, r, e)
    requires m + 1 == NextSequence(TaskLog(file, r.taskId))
    requires forall e :: e in file && e.taskId == r.taskId ==> e.sequence <= m
    requires var e := NewEvent(r, m + 1);
             if exists row :: row in table && Violates(e, row) then table' == table && out == Err(())
             else table' == table + {e} && out == Ok(e)
    ensures (out == ScanAppend(file, r).1 && SameRows(ScanAppend(file, r).0, table'))
            <==> !(Scan(file, r).None? && Collides(file, r))
    ensures out.Err? <==> Refused(file, r)
  {
    ScanNone(file, r);
    AppendKeeps(file, r);
    var e := NewEvent(r, m + 1);
    forall row | row in file ensures !SameKey(row, r) {
      assert row in table;
      assert !KeyRow(table, r, row);
    }
    if Scan(file, r).Some? {
      assert Scan(file, r).value == Err(());
      var row :| row in file && SameSource(row, r);
      assert row in table && Violates(e, row);
      assert out == Err(()) && table' == table;
    } else if Collides(file, r) {
      var row :| row in file && row.eventId == EventIdOf(r.taskId, KeyOf(r)) && !SameKey(row, r);
      assert row in table && Violates(e, row);
    } else {
      forall row | row in table ensures !Violates(e, row) {
        assert row in file;
      }
    }
  }

  ghost predicate NulFree(s: string) { '\0' !in s }

  lemma NoCollision(file: seq<Event>, r: Request)
    requires GoodFile(file) && NulFree(r.taskId) && forall e :: e in file ==> NulFree(e.taskId)
    ensures !Collides(file, r)
  {
    forall e | e in file && e.eventId == EventIdOf(r.taskId, KeyOf(r)) ensures SameKey(e, r) {
      SplitAtNul(e.taskId, e.key, r.taskId, KeyOf(r));
    }
  }

  lemma SplitAtNul(a: string, x: string, b: string, y: string)
    requires NulFree(a) && NulFree(b) && a + "\0" + x == b + "\0" + y
    ensures a == b && x == y
  {
    var whole, again := a + "\0" + x, b + "\0" + y;
    assert forall k :: 0 <= k < |a| ==> whole[k] == a[k];
    assert forall k :: 0 <= k < |b| ==> again[k] == b[k];
    assert whole[|a|] == '\0' && again[|b|] == '\0';
    assert |a| == |b|;
    assert whole[..|a|] == a && again[..|b|] == b;
    assert whole[|a| + 1..] == x && again[|b| + 1..] == y;
  }

  // Two task names made of NUL characters where the file accepts what the table refuses.
  lemma CollisionWitness(content: Content, stamp: Stamp)
    ensures var first := Request("a\0b", content, stamp, Some("c"));
            var second := Request("a", content.(sourceId := content.sourceId + "2"), stamp, Some("b\0c"));
            var file := ScanAppend([], first).0;
            && Scan(file, second).None? && Collides(file, second)
            && (WholeRequest(first) ==> FileAppend(file, second).1.Ok?)
  {
    var first := Request("a\0b", content, stamp, Some("c"));
    var second := Request("a", content.(sourceId := content.sourceId + "2"), stamp, Some("b\0c"));
    var file := ScanAppend([], first).0;
    assert |content.sourceId + "2"| == |content.sourceId| + 1;
    assert file == [NewEvent(first, 1)];
    assert file[1..] == [];
    assert file[0].eventId == "a\0b\0c" == EventIdOf("a", "b\0c");
    assert file[0] in file;
  }

  // ---------------------------------------------------------------- reads

  lemma {:induction false} SelectMembers(file: seq<Event>, q: Query)
    ensures forall e :: e in FileSelect(file, q) <==> e in file && Selected(e, q)
  {
    if file != [] {
      SelectMembers(file[..|file| - 1], q);
      assert file == file[..|file| - 1] + [file[|file| - 1]];
    }
  }

  lemma {:induction false} SelectAscends(log: seq<Event>, q: Query)
    requires Ascending(log)
    ensures Ascending(FileSelect(log, q))
  {
    if log != [] {
      var n := |log| - 1;
      SelectAscends(log[..n], q);
      SelectMembers(log[..n], q);
      var rest := FileSelect(log[..n], q);
      forall i | 0 <= i < |rest| ensures rest[i].sequence < log[n].sequence {
        assert rest[i] in rest;
        var j :| 0 <= j < n && log[j] == rest[i];
      }
    }
  }

  lemma LastIsGreatest(a: seq<Event>)
    requires Ascending(a) && a != []
    ensures var last := a[|a| - 1];
            && last in a && Ascending(a[..|a| - 1])
            && forall e :: e in a[..|a| - 1] <==> e in a && e.sequence < last.sequence
    ensures forall e :: e in a ==> e.sequence < a[|a| - 1].sequence || e == a[|a| - 1]
  {
    var n := |a| - 1;
    assert a == a[..n] + [a[n]];
    forall e | e in a[..n] ensures e.sequence < a[n].sequence {
      var i :| 0 <= i < n && a[..n][i] == e;
    }
  }

  // An ascending list is determined by its members.
  lemma {:induction false} AscendingUnique(a: seq<Event>, b: seq<Event>)
    requires Ascending(a) && Ascending(b) && forall e :: e in a <==> e in b
    ensures a == b
    decreases |a|
  {
    assert b != [] ==> b[0] in b;
    if a != [] {
      assert a[0] in b;
      LastIsGreatest(a);
      LastIsGreatest(b);
      assert a[|a| - 1] == b[|b| - 1];
      AscendingUnique(a[..|a| - 1], b[..|b| - 1]);
      SplitLast(a);
      SplitLast(b);
    }
  }

  lemma QueryIsExact(file: seq<Event>, table: set<Event>, q: Query, out: seq<Event>)
    requires SameRows(file, table)
    ensures TableRead(table, q, out) <==> out == SelectRows(file, q)
  {
    SelectFromTaskLog(file, q);
    assert Ascending(TaskLog(file, q.taskId));
    SelectAscends(TaskLog(file, q.taskId), q);
    SelectMembers(file, q);
    if TableRead(table, q, out) {
      var all: seq<Event> :|
        && Ascending(all) && (forall e :: e in all <==> e in table && Selected(e, q)) && out == Limited(all, q.limit);
      AscendingUnique(all, FileSelect(file, q));
    }
  }

  // The ordered query has exactly one answer, and it is the file's exactly when the file parses.
  lemma ReadAgrees(file: seq<Event>, table: set<Event>, q: Query)
    requires SameRows(file, table)
    ensures exists out :: TableRead(table, q, out)
    ensures forall out :: TableRead(table, q, out) ==> (FileRead(file, q) == Ok(out) <==> Parses(file))
  {
    QueryIsExact(file, table, q, SelectRows(file, q));
    forall out | TableRead(table, q, out) ensures FileRead(file, q) == Ok(out) <==> Parses(file) {
      QueryIsExact(file, table, q, out);
    }
  }

  // What a read asks of a row, in its fields.
  predicate Wanted(e: Event, q: Query) {
    && e.taskId == q.taskId && 0 < e.sequence && q.after < e.sequence
    && (q.kinds != {} ==> e.content.kind in q.kinds)
  }

  // The first rows that are asked for, in the order of their sequences: none is skipped, and one is left out only when
  // as many as the limit allows come before it.
  ghost predicate Answers(file: seq<Event>, q: Query, out: seq<Event>) {
    && Ascending(out) && (forall e :: e in out ==> e in file && Wanted(e, q)) && (0 < |out| ==> |out| <= q.limit)
    && forall e :: e in file && Wanted(e, q) && e !in out ==>
         |out| == Max(q.limit, 0) && forall x :: x in out ==> x.sequence < e.sequence
  }

  lemma {:induction false} SelectedAscend(file: seq<Event>, q: Query)
    requires GoodFile(file)
    ensures Ascending(FileSelect(file, q))
  {
    SelectFromTaskLog(file, q);
    assert Ascending(TaskLog(file, q.taskId));
    SelectAscends(TaskLog(file, q.taskId), q);
  }

  lemma ReadAnswers(file: seq<Event>, q: Query)
    requires GoodFile(file)
    ensures FileRead(file, q).Ok? <==> Parses(file)
    ensures Parses(file) ==> Answers(file, q, FileRead(file, q).value)
  {
    SelectMembers(file, q);
    SelectedAscend(file, q);
    var all := FileSelect(file, q);
    var out := SelectRows(file, q);
    forall e | e in out ensures e in all {
    }
    forall e | e in file && Wanted(e, q) && e !in out
      ensures |out| == Max(q.limit, 0) && forall x :: x in out ==> x.sequence < e.sequence
    {
      assert e in all;
      var k :| 0 <= k < |all| && all[k] == e;
      assert all[..|out|] == out && |out| <= k;
    }
  }

  lemma EraseAgrees(file: seq<Event>, table: set<Event>, taskId: string)
    requires SameRows(file, table)
    ensures SameRows(DropTask(file, taskId), TableErase(table, taskId))
  {
    EraseKeeps(file, taskId);
    EraseKeepsRows(file, taskId);
  }

  // ---------------------------------------------------------------- every sequence of operations

  datatype Op = Append(request: Request) | Read(query: Query) | Erase(taskId: string)

  datatype Answer =
    | Appended(result: Result<Event, ()>) | Events(events: Result<seq<Event>, ()>) | Erased(count: Result<nat, ()>)

  function FileStep(file: seq<Event>, op: Op): (seq<Event>, Answer) {
    match op
    case Append(r) => (FileAppend(file, r).0, Appended(FileAppend(file, r).1))
    case Read(q) => (file, Events(FileRead(file, q)))
    case Erase(id) => (FileErase(file, id).0, Erased(FileErase(file, id).1))
  }

  ghost predicate TableStep(table: set<Event>, op: Op, table': set<Event>, answer: Answer) {
    match op
    case Append(r) => answer.Appended? && TableAppend(table, r, table', answer.result)
    case Read(q) => answer.Events? && answer.events.Ok? && TableRead(table, q, answer.events.value) && table' == table
    case Erase(id) =>
      table' == TableErase(table, id) && answer == Erased(Ok(|set e | e in table && e.taskId == id|))
  }

  function FileRun(file: seq<Event>, ops: seq<Op>): (seq<Event>, seq<Answer>) {
    if ops == [] then (file, [])
    else
      var (file', answers) := FileRun(file, ops[..|ops| - 1]);
      var (file'', answer) := FileStep(file', ops[|ops| - 1]);
      (file'', answers + [answer])
  }

  // tables[0..n] and answers[0..n) are one possible history of the database.
  ghost predicate TableRun(tables: seq<set<Event>>, ops: seq<Op>, answers: seq<Answer>) {
    && |tables| == |ops| + 1 && |answers| == |ops|
    && forall k :: 0 <= k < |ops| ==> TableStep(tables[k], ops[k], tables[k + 1], answers[k])
  }

  ghost predicate PlainTasks(ops: seq<Op>) {
    forall k :: 0 <= k < |ops| && ops[k].Append? ==> NulFree(ops[k].request.taskId)
  }

  lemma {:induction false} CountRows(log: seq<Event>, rows: set<Event>)
    requires (forall e :: e in log <==> e in rows) && Ascending(log)
    ensures |rows| == |log|
  {
    if log != [] {
      var n := |log| - 1;
      assert log == log[..n] + [log[n]];
      forall e ensures e in log[..n] <==> e in rows - {log[n]} {
        assert e in log[..n] ==> e.sequence < log[n].sequence;
      }
      CountRows(log[..n], rows - {log[n]});
      assert log[n] in rows;
    } else {
      assert rows == {};
    }
  }

  // What both backends tell of a file that parses, and the same rows after it.
  ghost predicate Agree(file: seq<Event>, op: Op, table': set<Event>, answer: Answer) {
    FileStep(file, op).1 == answer && SameRows(FileStep(file, op).0, table')
  }

  lemma StepAgrees(file: seq<Event>, table: set<Event>, op: Op, table': set<Event>, answer: Answer)
    requires SameRows(file, table) && Parses(file) && TableStep(table, op, table', answer)
    requires op.Append? ==> !Collides(file, op.request)
    ensures Agree(file, op, table', answer)
  {
    match op {
      case Append(r) => AppendAgreesIff(file, table, r, table', answer.result);
      case Read(q) => ReadAgrees(file, table, q);
      case Erase(id) =>
        EraseAgrees(file, table, id);
        TaskLogMembers(file, id);
        CountRows(TaskLog(file, id), set e | e in table && e.taskId == id);
    }
  }

  ghost predicate PlainFile(file: seq<Event>) { forall e :: e in file ==> NulFree(e.taskId) }

  ghost predicate PlainOp(op: Op) { op.Append? ==> NulFree(op.request.taskId) }

  lemma StepStaysPlain(file: seq<Event>, op: Op)
    requires PlainFile(file) && PlainOp(op)
    ensures PlainFile(FileStep(file, op).0)
  {
    if op.Erase? {
      EraseKeepsRows(file, op.taskId);
    }
  }

  lemma PlainStepAgrees(file: seq<Event>, table: set<Event>, op: Op, table': set<Event>, answer: Answer)
    requires SameRows(file, table) && PlainFile(file) && Parses(file) && TableStep(table, op, table', answer)
    requires PlainOp(op)
    ensures Agree(file, op, table', answer) && PlainFile(FileStep(file, op).0)
  {
    if op.Append? {
      NoCollision(file, op.request);
    }
    StepAgrees(file, table, op, table', answer);
    StepStaysPlain(file, op);
  }

  // Whatever the next operation is, the backends answer it alike: exactly when the file parses.
  lemma NextAgreesIff(file: seq<Event>, table: set<Event>)
    requires SameRows(file, table) && PlainFile(file)
    ensures Parses(file) <==>
      forall op, table', answer :: PlainOp(op) && TableStep(table, op, table', answer)
                                   ==> Agree(file, op, table', answer)
  {
    if Parses(file) {
      forall op, table', answer | PlainOp(op) && TableStep(table, op, table', answer)
        ensures Agree(file, op, table', answer)
      {
        PlainStepAgrees(file, table, op, table', answer);
      }
    } else {
      var q := Query("", 0, {}, 0);
      ReadAgrees(file, table, q);
      var out :| TableRead(table, q, out);
      assert TableStep(table, Read(q), table, Events(Ok(out))) && !Agree(file, Read(q), table, Events(Ok(out)));
    }
  }

  // The file before the k-th operation.
  function FileAt(file: seq<Event>, ops: seq<Op>, k: nat): seq<Event>
    requires k <= |ops|
  {
    FileRun(file, ops[..k]).0
  }

  lemma {:induction false} RunStaysPlain(file: seq<Event>, ops: seq<Op>)
    requires PlainFile(file) && PlainTasks(ops)
    ensures PlainFile(FileRun(file, ops).0)
  {
    if ops != [] {
      RunStaysPlain(file, ops[..|ops| - 1]);
      StepStaysPlain(FileRun(file, ops[..|ops| - 1]).0, ops[|ops| - 1]);
    }
  }

  // A file that does not parse refuses everything and stays.
  lemma StepOnBroken(file: seq<Event>, op: Op)
    requires !Parses(file)
    ensures FileStep(file, op).0 == file
    ensures FileStep(file, op).1 == match op case Append(_) => Appended(Err(()))
                                             case Read(_) => Events(Err(())) case Erase(_) => Erased(Err(()))
  {
  }

  lemma {:induction false} BrokenForGood(file: seq<Event>, ops: seq<Op>, k: nat)
    requires k <= |ops| && !Parses(FileAt(file, ops, k))
    ensures FileRun(file, ops).0 == FileAt(file, ops, k)
    decreases |ops|
  {
    if k == |ops| {
      assert ops[..k] == ops;
    } else {
      var n := |ops| - 1;
      assert ops[..n][..k] == ops[..k];
      BrokenForGood(file, ops[..n], k);
      StepOnBroken(FileRun(file, ops[..n]).0, ops[n]);
    }
  }

  lemma RunSplit(tables: seq<set<Event>>, ops: seq<Op>, answers: seq<Answer>, n: nat)
    requires TableRun(tables, ops, answers) && PlainTasks(ops) && |ops| == n + 1
    ensures TableRun(tables[..n + 1], ops[..n], answers[..n]) && PlainTasks(ops[..n]) && PlainOp(ops[n])
    ensures TableStep(tables[n], ops[n], tables[n + 1], answers[n])
  {
  }

  // From the same rows, every sequence of appends, reads and erases whose every operation finds a file that parses gets
  // the same answers from both backends.
  lemma {:induction false} RunsAgree(
    file: seq<Event>, tables: seq<set<Event>>, ops: seq<Op>, answers: seq<Answer>)
    requires TableRun(tables, ops, answers) && SameRows(file, tables[0]) && PlainTasks(ops) && PlainFile(file)
    requires forall k :: 0 <= k < |ops| ==> Parses(FileAt(file, ops, k))
    ensures FileRun(file, ops).1 == answers && SameRows(FileRun(file, ops).0, tables[|ops|])
  {
    if ops != [] {
      var n := |ops| - 1;
      RunSplit(tables, ops, answers, n);
      forall k | 0 <= k < n ensures Parses(FileAt(file, ops[..n], k)) {
        assert ops[..n][..k] == ops[..k];
        assert Parses(FileAt(file, ops, k));
      }
      RunsAgree(file, tables[..n + 1], ops[..n], answers[..n]);
      RunStaysPlain(file, ops[..n]);
      assert Parses(FileAt(file, ops, n));
      PlainStepAgrees(FileRun(file, ops[..n]).0, tables[n], ops[n], tables[n + 1], answers[n]);
      SplitLast(answers);
    }
  }

  const REFUSED: Answer := Appended(Err(()))

  // The operation finds a file that parses, or is an append the table refuses as well.
  predicate Matched(file: seq<Event>, ops: seq<Op>, answers: seq<Answer>, k: nat)
    requires k < |ops| == |answers|
  {
    Parses(FileAt(file, ops, k)) || answers[k] == REFUSED
  }

  lemma LastAgreesIff(file: seq<Event>, tables: seq<set<Event>>, ops: seq<Op>, answers: seq<Answer>, n: nat)
    requires TableRun(tables, ops, answers) && SameRows(file, tables[0]) && PlainTasks(ops) && PlainFile(file)
    requires |ops| == n + 1 && FileRun(file, ops[..n]).1 == answers[..n]
    ensures FileRun(file, ops).1 == answers <==> Matched(file, ops, answers, n)
  {
    var before := FileRun(file, ops[..n]).0;
    RunSplit(tables, ops, answers, n);
    SplitLast(answers);
    assert FileRun(file, ops).1 == answers[..n] + [FileStep(before, ops[n]).1];
    assert FileRun(file, ops).1 == answers <==> FileStep(before, ops[n]).1 == answers[n] by {
      assert FileRun(file, ops).1[n] == FileStep(before, ops[n]).1;
    }
    if Parses(before) {
      forall k | 0 <= k < n ensures Parses(FileAt(file, ops[..n], k)) {
        if !Parses(FileAt(file, ops[..n], k)) {
          BrokenForGood(file, ops[..n], k);
        }
      }
      RunsAgree(file, tables[..n + 1], ops[..n], answers[..n]);
      RunStaysPlain(file, ops[..n]);
      PlainStepAgrees(before, tables[n], ops[n], tables[n + 1], answers[n]);
    } else {
      StepOnBroken(before, ops[n]);
    }
  }

  // Exactly when both backends tell the same: every operation finds a file that parses, or is an append the table
  // refuses as well.
  lemma {:induction false} BackendsAgreeIff(
    file: seq<Event>, tables: seq<set<Event>>, ops: seq<Op>, answers: seq<Answer>)
    requires TableRun(tables, ops, answers) && SameRows(file, tables[0]) && PlainTasks(ops) && PlainFile(file)
    ensures FileRun(file, ops).1 == answers <==> forall k :: 0 <= k < |ops| ==> Matched(file, ops, answers, k)
  {
    if ops != [] {
      var n := |ops| - 1;
      RunSplit(tables, ops, answers, n);
      BackendsAgreeIff(file, tables[..n + 1], ops[..n], answers[..n]);
      MatchedSplit(file, ops, answers, n);
      ToldSplit(file, ops, n);
      if FileRun(file, ops[..n]).1 == answers[..n] {
        LastAgreesIff(file, tables, ops, answers, n);
      }
    }
  }

  lemma MatchedSplit(file: seq<Event>, ops: seq<Op>, answers: seq<Answer>, n: nat)
    requires |ops| == |answers| == n + 1
    ensures (forall k :: 0 <= k <= n ==> Matched(file, ops, answers, k))
            <==> Matched(file, ops, answers, n) && forall k :: 0 <= k < n ==> Matched(file, ops[..n], answers[..n], k)
  {
    forall k | 0 <= k < n ensures Matched(file, ops[..n], answers[..n], k) <==> Matched(file, ops, answers, k) {
      assert ops[..n][..k] == ops[..k];
    }
  }

  lemma ToldSplit(file: seq<Event>, ops: seq<Op>, n: nat)
    requires |ops| == n + 1
    ensures |FileRun(file, ops).1| == n + 1 && FileRun(file, ops).1[..n] == FileRun(file, ops[..n]).1
  {
    ToldLength(file, ops[..n]);
  }

  lemma {:induction false} ToldLength(file: seq<Event>, ops: seq<Op>)
    ensures |FileRun(file, ops).1| == |ops|
  {
    if ops != [] {
      ToldLength(file, ops[..|ops| - 1]);
    }
  }

  // No text appended before the last operation holds a separator.
  ghost predicate WholeTexts(ops: seq<Op>) {
    forall k :: 0 <= k < |ops| - 1 && ops[k].Append? ==> WholeRequest(ops[k].request)
  }

  lemma StepParses(file: seq<Event>, op: Op)
    requires Parses(file) && (op.Append? ==> WholeRequest(op.request))
    ensures Parses(FileStep(file, op).0)
  {
    match op {
      case Append(r) => AppendParsesIff(file, r);
      case Read(_) =>
      case Erase(id) => EraseKeepsRows(file, id);
    }
  }

  lemma {:induction false} WholeRunParses(file: seq<Event>, ops: seq<Op>, k: nat)
    requires Parses(file) && k <= |ops| && forall i :: 0 <= i < k && ops[i].Append? ==> WholeRequest(ops[i].request)
    ensures Parses(FileAt(file, ops, k))
  {
    if k > 0 {
      WholeRunParses(file, ops, k - 1);
      assert ops[..k][..k - 1] == ops[..k - 1];
      StepParses(FileAt(file, ops, k - 1), ops[k - 1]);
    }
  }

  // From the same rows, every sequence of appends, reads and erases without a separator in a text gets the same answers
  // from both backends.
  lemma BackendsAgree(file: seq<Event>, tables: seq<set<Event>>, ops: seq<Op>, answers: seq<Answer>)
    requires TableRun(tables, ops, answers) && SameRows(file, tables[0]) && PlainTasks(ops) && PlainFile(file)
    requires Parses(file) && WholeTexts(ops)
    ensures FileRun(file, ops).1 == answers && SameRows(FileRun(file, ops).0, tables[|ops|])
  {
    forall k | 0 <= k < |ops| ensures Parses(FileAt(file, ops, k)) {
      WholeRunParses(file, ops, k);
    }
    RunsAgree(file, tables, ops, answers);
  }

  // One accepted append of such a text to an empty file: after it every read, append and erase of every task raises on
  // the file, while the table answers each read.
  lemma SeparatorBreaksTheFile(r: Request, q: Query, other: Request, id: string)
    requires !WholeRequest(r)
    ensures var file := FileAppend([], r).0;
            var table := {NewEvent(r, 1)};
            && FileAppend([], r).1 == Ok(NewEvent(r, 1)) && TableAppend({}, r, table, Ok(NewEvent(r, 1)))
            && FileRead(file, q).Err? && FileAppend(file, other) == (file, Err(())) && FileErase(file, id).1.Err?
            && exists out :: TableRead(table, q, out)
  {
    var e := NewEvent(r, 1);
    assert [] + [e] == [e];
    assert ScanAppend([], r) == ([e], Ok(e));
    assert e in [e];
    assert IsMaxSequence({}, r.taskId, 0);
    assert forall row :: row in {} ==> !Violates(e, row);
    assert forall x :: !KeyRow({}, r, x);
    AppendKeeps([], r);
    assert SameRows([e], {e});
    ReadAgrees([e], {e}, q);
  }

  // A pasted text is enough.
  lemma SeparatorInPayload(r: Request)
    requires r.content.payload == "\U{2028}"
    ensures !WholeRequest(r)
  {
    assert r.content.payload[0] in r.content.payload;
  }
}
