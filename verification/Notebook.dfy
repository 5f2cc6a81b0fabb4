// harness/notebook/reducer.py: the notebook as a fold over the task's events.
module Notebook {
  import opened Wrappers

  datatype Kind = TaskCreated | MessageRecorded | SteeringReceived | CompactionCreated
    | Snapshotted | CellAdded | Submitted | CompletedKind | FailedKind | TimeoutKind | CellDeleted
    | OtherKind(name: string)

  datatype Effect = NoEffect | Observed | ChangedFiles | UnknownEffect

  datatype Status = Started | Completed | Failed | Timeout | EffectUnknown

  datatype Policy = Safe | LoadCheckpoint | RequiresReconciliation | Never

  // A digest of an event id, or an identifier from a payload; the two never coincide.
  datatype CellId = Digest(eventId: string) | Given(name: string)

  // `narrative` is the rendered Markdown of the four narrative kinds, absent when their payload has none; an absent
  // `cell` is one that is missing, empty or no string.
  datatype Event = Event(
    id: string, sequence: nat, kind: Kind, narrative: Option<string>, notebook: Option<string>, cell: Option<CellId>,
    source: string, attempt: Option<string>, epoch: Option<string>, policy: Option<Policy>, refs: set<string>,
    effect: Option<Effect>, outputs: string, at: int)

  datatype Cell =
    | Markdown(id: CellId, source: string, eventId: string, kind: Kind, start: nat, at: int)
    | Code(id: CellId, source: string, addedBy: string, attempt: string, epoch: string, start: nat, end: nat,
           status: Status, effect: Effect, policy: Policy, refs: set<string>, outputs: string, at: int,
           completedAt: Option<int>)

  datatype State = State(cells: map<CellId, Cell>, order: seq<CellId>, watermark: nat)

  const EMPTY: State := State(map[], [], 0)

  function Narrative(e: Event): Option<string> {
    if e.kind in {TaskCreated, MessageRecorded, SteeringReceived, CompactionCreated} then e.narrative else None
  }

  predicate Terminal(kind: Kind) { kind in {CompletedKind, FailedKind, TimeoutKind} }

  function FinalEffect(e: Event): Effect {
    if e.effect.Some? then e.effect.value else if e.kind == TimeoutKind then UnknownEffect else NoEffect
  }

  function FinalStatus(e: Event): Status
    requires Terminal(e.kind)
  {
    if FinalEffect(e) == UnknownEffect && e.kind != CompletedKind then EffectUnknown
    else if e.kind == CompletedKind then Completed else if e.kind == FailedKind then Failed else Timeout
  }

  function Without(order: seq<CellId>, id: CellId): seq<CellId> {
    if order == [] then [] else if order[0] == id then order[1..] else [order[0]] + Without(order[1..], id)
  }

  function AddMarkdown(s: State, e: Event, text: string): State {
    var id := Digest(e.id);
    var s1 := s.(watermark := Max(s.watermark, e.sequence));
    if id in s.cells then s1
    else s1.(cells := s.cells[id := Markdown(id, text, e.id, e.kind, e.sequence, e.at)], order := s.order + [id])
  }

  function AddCode(s: State, e: Event): Result<State, ()> {
    if e.cell.None? || e.attempt.None? || e.epoch.None? then Err(())
    else
      var id := e.cell.value;
      var candidate := Code(id, e.source, e.id, e.attempt.value, e.epoch.value, e.sequence, e.sequence, Started,
                            NoEffect, if e.policy.Some? then e.policy.value else RequiresReconciliation, e.refs,
                            "", e.at, None);
      if id !in s.cells then Ok(s.(cells := s.cells[id := candidate], order := s.order + [id]))
      else if s.cells[id] != candidate then Err(()) else Ok(s)
  }

  function UpdateCode(s: State, e: Event): Result<State, ()> {
    if e.cell.None? || e.cell.value !in s.cells || s.cells[e.cell.value].Markdown? then Ok(s)
    else
      var id, cell := e.cell.value, s.cells[e.cell.value];
      if e.attempt.Some? && e.attempt.value != cell.attempt then Err(())
      else if e.kind == Submitted then Ok(s.(cells := s.cells[id := cell.(end := e.sequence)]))
      else if Terminal(e.kind) then
        Ok(s.(cells := s.cells[id := cell.(
          end := e.sequence, status := FinalStatus(e), effect := FinalEffect(e), refs := cell.refs + e.refs,
          outputs := e.outputs, completedAt := Some(e.at))]))
      else if e.kind == CellDeleted then Ok(s.(cells := s.cells - {id}, order := Without(s.order, id)))
      else Ok(s)
  }

  // One iteration of the reducer's loop.
  function Apply(s: State, e: Event, notebook: string): Result<State, ()> {
    if Narrative(e).Some? then Ok(AddMarkdown(s, e, Narrative(e).value))
    else if e.notebook != Some(notebook) || e.kind == Snapshotted then Ok(s)
    else
      var s1 := s.(watermark := Max(s.watermark, e.sequence));
      if e.kind == CellAdded then AddCode(s1, e) else UpdateCode(s1, e)
  }

  function Project(ordered: seq<Event>, notebook: string): Result<State, ()> {
    if ordered == [] then Ok(EMPTY)
    else
      var s := Project(ordered[..|ordered| - 1], notebook);
      if s.Err? then s else Apply(s.value, ordered[|ordered| - 1], notebook)
  }

  // ---------------------------------------------------------------- sorted(events, key=sequence)

  function Insert(e: Event, sorted: seq<Event>): seq<Event> {
    if sorted == [] || sorted[|sorted| - 1].sequence <= e.sequence then sorted + [e]
    else Insert(e, sorted[..|sorted| - 1]) + [sorted[|sorted| - 1]]
  }

  function Sort(events: seq<Event>): seq<Event> {
    if events == [] then [] else Insert(events[|events| - 1], Sort(events[..|events| - 1]))
  }

  function Reduce(events: seq<Event>, notebook: string): Result<State, ()> { Project(Sort(events), notebook) }

  ghost predicate Ascending(s: seq<Event>) { forall i, j :: 0 <= i < j < |s| ==> s[i].sequence < s[j].sequence }

  ghost predicate Distinct(s: seq<Event>) { forall i, j :: 0 <= i < j < |s| ==> s[i].sequence != s[j].sequence }

  lemma LastIsGreatest(a: seq<Event>)
    requires Ascending(a) && a != []
    ensures Ascending(a[..|a| - 1]) && a[|a| - 1] in a
    ensures forall e :: e in a[..|a| - 1] <==> e in a && e.sequence < a[|a| - 1].sequence
    ensures forall e :: e in a ==> e.sequence < a[|a| - 1].sequence || e == a[|a| - 1]
  {
    var n := |a| - 1;
    assert a == a[..n] + [a[n]];
    forall e | e in a[..n] ensures e.sequence < a[n].sequence {
      var i :| 0 <= i < n && a[..n][i] == e;
    }
  }

  lemma AppendAscends(sorted: seq<Event>, e: Event)
    requires Ascending(sorted) && forall x :: x in sorted ==> x.sequence < e.sequence
    ensures Ascending(sorted + [e]) && forall x :: x in sorted + [e] <==> x in sorted || x == e
  {
    assert forall i :: 0 <= i < |sorted| ==> sorted[i] in sorted;
  }

  lemma {:induction false} InsertAscends(e: Event, sorted: seq<Event>)
    requires Ascending(sorted) && forall x :: x in sorted ==> x.sequence != e.sequence
    ensures Ascending(Insert(e, sorted))
    ensures forall x :: x in Insert(e, sorted) <==> x in sorted || x == e
  {
    if sorted == [] {
      AppendAscends(sorted, e);
    } else {
      var n := |sorted| - 1;
      LastIsGreatest(sorted);
      if sorted[n].sequence <= e.sequence {
        AppendAscends(sorted, e);
      } else {
        InsertAscends(e, sorted[..n]);
        AppendAscends(Insert(e, sorted[..n]), sorted[n]);
      }
    }
  }

  lemma {:induction false} SortAscends(events: seq<Event>)
    requires Distinct(events)
    ensures Ascending(Sort(events)) && forall e :: e in Sort(events) <==> e in events
  {
    if events != [] {
      var n := |events| - 1;
      SortAscends(events[..n]);
      SplitLast(events);
      forall x | x in Sort(events[..n]) ensures x.sequence != events[n].sequence {
        var i :| 0 <= i < n && events[..n][i] == x;
      }
      InsertAscends(events[n], Sort(events[..n]));
    }
  }

  lemma {:induction false} AscendingUnique(a: seq<Event>, b: seq<Event>)
    requires Ascending(a) && Ascending(b) && forall e :: e in a <==> e in b
    ensures a == b
    decreases |a|
  {
    assert b != [] ==> b[0] in b;
    if a != [] {
      assert a[0] in b;
      LastIsGreatest(a);
      LastIsGreatest(b);
      AscendingUnique(a[..|a| - 1], b[..|b| - 1]);
      SplitLast(a);
      SplitLast(b);
    }
  }

  // The notebook does not depend on the order in which the events are handed over.
  lemma OrderDoesNotMatter(a: seq<Event>, b: seq<Event>, notebook: string)
    requires Distinct(a) && Distinct(b) && forall e :: e in a <==> e in b
    ensures Reduce(a, notebook) == Reduce(b, notebook)
  {
    SortAscends(a);
    SortAscends(b);
    AscendingUnique(Sort(a), Sort(b));
  }

  // ---------------------------------------------------------------- recording the projection

  // What materialisation, restoration and snapshots record: events of no notebook, or snapshots.
  predicate Passive(e: Event, notebook: string) {
    Narrative(e).None? && (e.notebook != Some(notebook) || e.kind == Snapshotted)
  }

  lemma ProjectSnoc(ordered: seq<Event>, e: Event, notebook: string)
    ensures var s := Project(ordered, notebook);
            Project(ordered + [e], notebook) == if s.Err? then s else Apply(s.value, e, notebook)
  {
    assert (ordered + [e])[..|ordered|] == ordered;
  }

  lemma {:induction false} InsertPassive(e: Event, sorted: seq<Event>, notebook: string)
    requires Passive(e, notebook)
    ensures Project(Insert(e, sorted), notebook) == Project(sorted, notebook)
  {
    if sorted == [] || sorted[|sorted| - 1].sequence <= e.sequence {
      ProjectSnoc(sorted, e, notebook);
    } else {
      var n := |sorted| - 1;
      InsertPassive(e, sorted[..n], notebook);
      ProjectSnoc(Insert(e, sorted[..n]), sorted[n], notebook);
    }
  }

  // The projection is a fixpoint of recording itself.
  lemma {:induction false} RecordingIsInvisible(events: seq<Event>, records: seq<Event>, notebook: string)
    requires forall i :: 0 <= i < |records| ==> Passive(records[i], notebook)
    ensures Reduce(events + records, notebook) == Reduce(events, notebook)
  {
    if records == [] {
      EmptySides(events);
    } else {
      var n := |records| - 1;
      RecordingIsInvisible(events, records[..n], notebook);
      OneMoreRecord(events + records[..n], records[n], notebook);
      assert events + records == (events + records[..n]) + [records[n]];
    }
  }

  lemma OneMoreRecord(events: seq<Event>, record: Event, notebook: string)
    requires Passive(record, notebook)
    ensures Reduce(events + [record], notebook) == Reduce(events, notebook)
  {
    SortSnoc(events, record);
    InsertPassive(record, Sort(events), notebook);
  }

  lemma SortSnoc(events: seq<Event>, e: Event)
    ensures Sort(events + [e]) == Insert(e, Sort(events))
  {
    assert (events + [e])[..|events|] == events;
  }

  // ---------------------------------------------------------------- the shape of the result

  function End(c: Cell): nat { if c.Markdown? then c.start else c.end }

  // In notebook order, cells start at ever later events.
  ghost predicate Rising(order: seq<CellId>, cells: map<CellId, Cell>) {
    && (forall i :: 0 <= i < |order| ==> order[i] in cells)
    && (forall i, j :: 0 <= i < j < |order| ==> cells[order[i]].start < cells[order[j]].start)
  }

  ghost predicate Sound(s: State) {
    && Rising(s.order, s.cells) && (forall id :: id in s.cells ==> id in s.order)
    && (forall id :: id in s.cells ==> s.cells[id].id == id && s.cells[id].start <= End(s.cells[id]) <= s.watermark)
  }

  lemma RisingTail(order: seq<CellId>, cells: map<CellId, Cell>)
    requires Rising(order, cells) && order != []
    ensures Rising(order[1..], cells)
    ensures forall x :: x in order[1..] ==> x in cells && cells[order[0]].start < cells[x].start
  {
  }

  lemma RisingCons(first: CellId, rest: seq<CellId>, cells: map<CellId, Cell>)
    requires first in cells && Rising(rest, cells)
    requires forall x :: x in rest ==> x in cells && cells[first].start < cells[x].start
    ensures Rising([first] + rest, cells)
  {
    var all := [first] + rest;
    forall i, j | 0 <= i < j < |all| ensures all[j] in cells && cells[all[i]].start < cells[all[j]].start {
      assert all[j] == rest[j - 1] && all[j] in rest;
      if i > 0 {
        assert all[i] == rest[i - 1];
      }
    }
  }

  lemma {:induction false} WithoutRises(order: seq<CellId>, id: CellId, cells: map<CellId, Cell>)
    requires Rising(order, cells)
    ensures Rising(Without(order, id), cells)
    ensures forall x :: x in Without(order, id) <==> x in order && x != id
  {
    if order != [] {
      RisingTail(order, cells);
      assert order == [order[0]] + order[1..];
      if order[0] != id {
        WithoutRises(order[1..], id, cells);
        RisingCons(order[0], Without(order[1..], id), cells);
      }
    }
  }

  // Updating a cell without moving its start keeps the order.
  lemma UpdateSound(s: State, id: CellId, c: Cell)
    requires Sound(s) && id in s.cells && c.id == id && c.start == s.cells[id].start && c.start <= End(c) <= s.watermark
    ensures Sound(s.(cells := s.cells[id := c]))
  {
  }

  lemma AppendSound(s: State, c: Cell)
    requires Sound(s) && c.id !in s.cells && s.watermark >= c.start == End(c)
    requires forall id :: id in s.cells ==> s.cells[id].start < c.start
    ensures Sound(s.(cells := s.cells[c.id := c], order := s.order + [c.id]))
  {
    assert forall i :: 0 <= i < |s.order| ==> s.order[i] in s.cells && s.order[i] != c.id;
  }

  lemma MarkedSound(s: State, sequence: nat)
    requires Sound(s) && s.watermark < sequence
    ensures Sound(s.(watermark := sequence)) && forall id :: id in s.cells ==> s.cells[id].start < sequence
  {
  }

  lemma MarkdownSound(s: State, e: Event, text: string)
    requires Sound(s) && s.watermark < e.sequence
    ensures Sound(AddMarkdown(s, e, text))
  {
    MarkedSound(s, e.sequence);
    if Digest(e.id) !in s.cells {
      AppendSound(s.(watermark := e.sequence), Markdown(Digest(e.id), text, e.id, e.kind, e.sequence, e.at));
    }
  }

  lemma CodeSound(s: State, e: Event)
    requires Sound(s) && s.watermark == e.sequence && (forall id :: id in s.cells ==> s.cells[id].start < e.sequence)
    requires AddCode(s, e).Ok?
    ensures Sound(AddCode(s, e).value)
  {
    if e.cell.value !in s.cells {
      AppendSound(s, AddCode(s, e).value.cells[e.cell.value]);
    }
  }

  lemma DeleteSound(s: State, id: CellId)
    requires Sound(s)
    ensures Sound(s.(cells := s.cells - {id}, order := Without(s.order, id)))
  {
    WithoutRises(s.order, id, s.cells);
  }

  lemma UpdatedSound(s: State, e: Event)
    requires Sound(s) && s.watermark == e.sequence && UpdateCode(s, e).Ok?
    ensures Sound(UpdateCode(s, e).value)
  {
    if UpdateCode(s, e).value != s {
      var id := e.cell.value;
      if e.kind == CellDeleted {
        DeleteSound(s, id);
      } else {
        UpdateSound(s, id, UpdateCode(s, e).value.cells[id]);
      }
    }
  }

  lemma ApplySound(s: State, e: Event, notebook: string)
    requires Sound(s) && s.watermark < e.sequence && Apply(s, e, notebook).Ok?
    ensures Sound(Apply(s, e, notebook).value) && Apply(s, e, notebook).value.watermark <= e.sequence
  {
    if Narrative(e).Some? {
      MarkdownSound(s, e, Narrative(e).value);
    } else if e.notebook == Some(notebook) && e.kind != Snapshotted {
      MarkedSound(s, e.sequence);
      if e.kind == CellAdded {
        CodeSound(s.(watermark := e.sequence), e);
      } else {
        UpdatedSound(s.(watermark := e.sequence), e);
      }
    }
  }

  lemma {:induction false} ProjectSound(ordered: seq<Event>, notebook: string)
    requires Ascending(ordered) && (forall e :: e in ordered ==> e.sequence >= 1) && Project(ordered, notebook).Ok?
    ensures Sound(Project(ordered, notebook).value)
    ensures forall e :: e in ordered && e == ordered[|ordered| - 1]
              ==> Project(ordered, notebook).value.watermark <= e.sequence
    ensures ordered == [] ==> Project(ordered, notebook).value.watermark == 0
  {
    if ordered != [] {
      var n := |ordered| - 1;
      LastIsGreatest(ordered);
      assert ordered == ordered[..n] + [ordered[n]];
      ProjectSound(ordered[..n], notebook);
      assert n > 0 ==> ordered[..n][n - 1] in ordered[..n];
      ApplySound(Project(ordered[..n], notebook).value, ordered[n], notebook);
    }
  }

  function Presented(s: State): seq<Cell>
    requires forall i :: 0 <= i < |s.order| ==> s.order[i] in s.cells
  {
    seq(|s.order|, i requires 0 <= i < |s.order| => s.cells[s.order[i]])
  }

  // Duplicate-free, starting at strictly later events, each ending at or after its start and by the watermark.
  ghost predicate WellPresented(cells: seq<Cell>, watermark: nat) {
    && (forall i, j :: 0 <= i < j < |cells| ==> cells[i].id != cells[j].id && cells[i].start < cells[j].start)
    && (forall i :: 0 <= i < |cells| ==> cells[i].start <= End(cells[i]) <= watermark)
  }

  lemma SoundIsWellPresented(s: State)
    requires Sound(s)
    ensures WellPresented(Presented(s), s.watermark)
  {
    assert forall i :: 0 <= i < |s.order| ==> Presented(s)[i] == s.cells[s.order[i]];
  }

  // The notebook a reader gets is well presented.
  lemma NotebookIsOrdered(events: seq<Event>, notebook: string)
    requires Distinct(events) && (forall e :: e in events ==> e.sequence >= 1) && Reduce(events, notebook).Ok?
    ensures var s := Reduce(events, notebook).value;
            Sound(s) && WellPresented(Presented(s), s.watermark)
  {
    SortAscends(events);
    ProjectSound(Sort(events), notebook);
    SoundIsWellPresented(Reduce(events, notebook).value);
  }

  // ---------------------------------------------------------------- what a cell shows

  predicate Adds(e: Event, notebook: string) {
    e.kind == CellAdded && Narrative(e).None? && e.notebook == Some(notebook)
  }

  predicate Ends(e: Event, notebook: string, id: CellId) {
    Terminal(e.kind) && e.notebook == Some(notebook) && e.cell == Some(id)
  }

  // The last terminal event of a cell since it was added.
  function LastEnd(ordered: seq<Event>, notebook: string, id: CellId): (r: Option<Event>)
    ensures r.Some? ==> Terminal(r.value.kind)
  {
    if ordered == [] then None
    else
      var last := ordered[|ordered| - 1];
      if Adds(last, notebook) && last.cell == Some(id) then None
      else if Ends(last, notebook, id) then Some(last)
      else LastEnd(ordered[..|ordered| - 1], notebook, id)
  }

  // The cell's status, effect and outputs are those of `end`, or those of a cell just started.
  predicate Shows(c: Cell, end: Option<Event>) {
    c.Markdown?
    || (end.None? && c.status == Started && c.effect == NoEffect && c.outputs == "" && c.completedAt.None?)
    || (end.Some? && Terminal(end.value.kind) && c.status == FinalStatus(end.value)
        && c.effect == FinalEffect(end.value) && c.outputs == end.value.outputs
        && c.completedAt == Some(end.value.at) && c.end >= end.value.sequence)
  }

  lemma ApplyShows(s: State, e: Event, notebook: string, id: CellId, end: Option<Event>)
    requires Sound(s) && s.watermark < e.sequence && Apply(s, e, notebook).Ok?
    requires id in s.cells ==> Shows(s.cells[id], end)
    ensures var s' := Apply(s, e, notebook).value;
            id in s'.cells ==>
              Shows(s'.cells[id], if Adds(e, notebook) && e.cell == Some(id) then None
                                  else if Ends(e, notebook, id) then Some(e) else end)
  {
    assert forall c :: c in s.cells ==> s.cells[c].start < e.sequence;
  }

  // Every cell of the notebook shows its last terminal event, and is started until it has one.
  lemma {:induction false} CellsShowTheirEnd(ordered: seq<Event>, notebook: string, id: CellId)
    requires Ascending(ordered) && (forall e :: e in ordered ==> e.sequence >= 1) && Project(ordered, notebook).Ok?
    ensures var s := Project(ordered, notebook).value;
            id in s.cells ==> Shows(s.cells[id], LastEnd(ordered, notebook, id))
  {
    if ordered != [] {
      var n := |ordered| - 1;
      LastIsGreatest(ordered);
      SplitLast(ordered);
      CellsShowTheirEnd(ordered[..n], notebook, id);
      ProjectSound(ordered[..n], notebook);
      assert n > 0 ==> ordered[..n][n - 1] in ordered[..n];
      ApplyShows(Project(ordered[..n], notebook).value, ordered[n], notebook, id, LastEnd(ordered[..n], notebook, id));
    }
  }

  // ---------------------------------------------------------------- each cell is the history of its own events

  // What this notebook's events say about one cell, in order.
  function Mine(ordered: seq<Event>, notebook: string, id: CellId): seq<Event> {
    if ordered == [] then []
    else
      var last := ordered[|ordered| - 1];
      Mine(ordered[..|ordered| - 1], notebook, id)
      + (if last.notebook == Some(notebook) && last.cell == Some(id) then [last] else [])
  }

  // The status a cell ends with.
  function Ending(kind: Kind, effect: Effect): Status {
    match kind
    case CompletedKind => Completed
    case FailedKind => if effect.UnknownEffect? then EffectUnknown else Failed
    case _ => if effect.UnknownEffect? then EffectUnknown else Timeout
  }

  // A cell at its addition.
  function Fresh(e: Event, id: CellId): Cell {
    Code(id, e.source, e.id, OrElse(e.attempt, ""), OrElse(e.epoch, ""), e.sequence, e.sequence, Started, NoEffect,
         match e.policy case Some(p) => p case None => RequiresReconciliation, e.refs, "", e.at, None)
  }

  // The cell after a run that ended with this event.
  function Ended(c: Cell, e: Event): Cell
    requires c.Code?
  {
    var effect := match e.effect case Some(x) => x case None => if e.kind.TimeoutKind? then UnknownEffect else NoEffect;
    Code(c.id, c.source, c.addedBy, c.attempt, c.epoch, c.start, e.sequence, Ending(e.kind, effect), effect, c.policy,
         c.refs + e.refs, e.outputs, c.at, Some(e.at))
  }

  // The cell its own events leave, if any.
  function Own(mine: seq<Event>, id: CellId): (r: Option<Cell>)
    ensures r.Some? ==> r.value.Code?
  {
    if mine == [] then None
    else
      var last := mine[|mine| - 1];
      var before := Own(mine[..|mine| - 1], id);
      match last.kind
      case CellAdded => if before.Some? then before else Some(Fresh(last, id))
      case CellDeleted => None
      case Submitted => if before.None? then None else Some(before.value.(end := last.sequence))
      case CompletedKind => if before.None? then None else Some(Ended(before.value, last))
      case FailedKind => if before.None? then None else Some(Ended(before.value, last))
      case TimeoutKind => if before.None? then None else Some(Ended(before.value, last))
      case _ => before
  }

  // Payloads name cells, not digests, and name attempts and epochs that are not empty.
  ghost predicate Named(ordered: seq<Event>) {
    forall e :: e in ordered ==>
      && (e.cell.Some? ==> e.cell.value.Given?) && e.attempt != Some("") && e.epoch != Some("")
  }

  lemma MineSnoc(ordered: seq<Event>, e: Event, notebook: string, id: CellId)
    ensures Mine(ordered + [e], notebook, id)
            == Mine(ordered, notebook, id) + (if e.notebook == Some(notebook) && e.cell == Some(id) then [e] else [])
  {
    assert (ordered + [e])[..|ordered|] == ordered;
  }

  lemma ApplyElsewhere(s: State, e: Event, notebook: string, id: CellId)
    requires id.Given? && Apply(s, e, notebook).Ok? && !(e.notebook == Some(notebook) && e.cell == Some(id))
    ensures Lookup(Apply(s, e, notebook).value.cells, id) == Lookup(s.cells, id)
  {
  }

  // What an event that raises nothing does to the code cell it names.
  lemma ApplyHere(s: State, e: Event, notebook: string, id: CellId, mine: seq<Event>)
    requires id.Given? && e.attempt != Some("") && e.epoch != Some("") && Apply(s, e, notebook).Ok?
    requires e.notebook == Some(notebook) && e.cell == Some(id) && Own(mine, id) == Lookup(s.cells, id)
    ensures Own(mine + [e], id) == Lookup(Apply(s, e, notebook).value.cells, id)
  {
    assert (mine + [e])[..|mine|] == mine;
  }

  lemma ApplyOwn(s: State, e: Event, notebook: string, id: CellId, mine: seq<Event>)
    requires id.Given? && Named([e]) && Apply(s, e, notebook).Ok? && Own(mine, id) == Lookup(s.cells, id)
    ensures Own(mine + (if e.notebook == Some(notebook) && e.cell == Some(id) then [e] else []), id)
            == Lookup(Apply(s, e, notebook).value.cells, id)
  {
    assert e in [e];
    if e.notebook == Some(notebook) && e.cell == Some(id) {
      ApplyHere(s, e, notebook, id, mine);
    } else {
      ApplyElsewhere(s, e, notebook, id);
      EmptySides(mine);
    }
  }

  // Every code cell of the notebook is what its own events make of it, and there is no other.
  lemma {:induction false} CellsAreTheirHistory(ordered: seq<Event>, notebook: string, id: CellId)
    requires Project(ordered, notebook).Ok? && Named(ordered) && id.Given?
    ensures var cells := Project(ordered, notebook).value.cells;
            Own(Mine(ordered, notebook, id), id) == Lookup(cells, id)
  {
    if ordered != [] {
      var n := |ordered| - 1;
      SplitLast(ordered);
      CellsAreTheirHistory(ordered[..n], notebook, id);
      MineSnoc(ordered[..n], ordered[n], notebook, id);
      ApplyOwn(Project(ordered[..n], notebook).value, ordered[n], notebook, id, Mine(ordered[..n], notebook, id));
    }
  }

  // A request, a message, steering or a compaction that has a text.
  ghost predicate Tells(e: Event) {
    && e.narrative.Some?
    && (e.kind == TaskCreated || e.kind == MessageRecorded || e.kind == SteeringReceived || e.kind == CompactionCreated)
  }

  function Told(e: Event): Option<Cell> {
    match e.narrative
    case None => None
    case Some(text) => Some(Markdown(Digest(e.id), text, e.id, e.kind, e.sequence, e.at))
  }

  lemma ApplyTold(s: State, e: Event, notebook: string, eventId: string)
    requires Named([e]) && Apply(s, e, notebook).Ok?
    ensures var (cells, cells') := (s.cells, Apply(s, e, notebook).value.cells);
            Lookup(cells', Digest(eventId))
            == if Digest(eventId) in cells then Some(cells[Digest(eventId)])
               else if Tells(e) && e.id == eventId then Told(e) else None
  {
    assert e in [e];
  }

  // Every narrative event has its Markdown cell, with its text and place, and no other event has.
  lemma {:induction false} NarrativesAreShown(ordered: seq<Event>, notebook: string, eventId: string)
    requires Project(ordered, notebook).Ok? && Named(ordered)
    requires forall i, j :: 0 <= i < j < |ordered| ==> ordered[i].id != ordered[j].id
    ensures var shown := Lookup(Project(ordered, notebook).value.cells, Digest(eventId));
            && (shown.Some? <==> exists e :: e in ordered && Tells(e) && e.id == eventId)
            && (forall e :: e in ordered && Tells(e) && e.id == eventId ==> shown == Told(e))
  {
    if ordered != [] {
      var n := |ordered| - 1;
      SplitLast(ordered);
      NarrativesAreShown(ordered[..n], notebook, eventId);
      ApplyTold(Project(ordered[..n], notebook).value, ordered[n], notebook, eventId);
      assert forall e :: e in ordered <==> e in ordered[..n] || e == ordered[n];
      assert forall e :: e in ordered[..n] ==> e.id != ordered[n].id;
    }
  }

  // The watermark is the sequence of the last event that tells something or is one of this notebook's cells.
  ghost predicate Counts(e: Event, notebook: string) {
    Tells(e) || (e.notebook == Some(notebook) && e.kind != Snapshotted)
  }

  lemma {:induction false} WatermarkIsLast(ordered: seq<Event>, notebook: string)
    requires Project(ordered, notebook).Ok? && Ascending(ordered)
    ensures var mark := Project(ordered, notebook).value.watermark;
            && (forall e :: e in ordered && Counts(e, notebook) ==> e.sequence <= mark)
            && (mark == 0 || exists e :: e in ordered && Counts(e, notebook) && e.sequence == mark)
  {
    if ordered != [] {
      var n := |ordered| - 1;
      LastIsGreatest(ordered);
      SplitLast(ordered);
      WatermarkIsLast(ordered[..n], notebook);
      ApplyMarks(Project(ordered[..n], notebook).value, ordered[n], notebook);
    }
  }

  lemma ApplyMarks(s: State, e: Event, notebook: string)
    requires Apply(s, e, notebook).Ok?
    ensures Apply(s, e, notebook).value.watermark
            == if Counts(e, notebook) && e.sequence > s.watermark then e.sequence else s.watermark
  {
  }

  // What makes the reducer raise: a cell added incompletely or again, or an event of another attempt than its cell's.
  ghost predicate Clashes(e: Event, notebook: string, cell: Option<Cell>)
    requires cell.Some? ==> cell.value.Code?
  {
    && e.notebook == Some(notebook) && !Tells(e) && e.kind != Snapshotted
    && if e.kind == CellAdded
       then e.cell.None? || e.attempt.None? || e.epoch.None? || cell.Some?
       else cell.Some? && e.attempt.Some? && e.attempt.value != cell.value.attempt
  }

  // The reducer raises at an event exactly when that clashes with the history of its cell.
  lemma RaisesIff(ordered: seq<Event>, e: Event, notebook: string)
    requires Project(ordered, notebook).Ok? && Named(ordered + [e]) && Ascending(ordered + [e])
    requires forall x :: x in ordered + [e] ==> x.sequence >= 1
    ensures Project(ordered + [e], notebook).Err?
            <==> Clashes(e, notebook, if e.cell.None? then None
                                      else Own(Mine(ordered, notebook, e.cell.value), e.cell.value))
  {
    ProjectSnoc(ordered, e, notebook);
    assert e in ordered + [e] && forall x :: x in ordered ==> x in ordered + [e];
    if e.cell.Some? {
      CellsAreTheirHistory(ordered, notebook, e.cell.value);
      StartsBefore(ordered, e, notebook, e.cell.value);
      ApplyRaisesIff(Project(ordered, notebook).value, e, notebook,
                     Own(Mine(ordered, notebook, e.cell.value), e.cell.value));
    }
  }

  lemma ApplyRaisesIff(s: State, e: Event, notebook: string, cell: Option<Cell>)
    requires e.cell.Some? && cell == Lookup(s.cells, e.cell.value)
    requires cell.Some? ==> cell.value.Code? && cell.value.start < e.sequence
    ensures Apply(s, e, notebook).Err? <==> Clashes(e, notebook, cell)
  {
  }

  // Cells start before any later event.
  lemma StartsBefore(ordered: seq<Event>, e: Event, notebook: string, id: CellId)
    requires Project(ordered, notebook).Ok? && Ascending(ordered + [e])
    requires forall x :: x in ordered + [e] ==> x.sequence >= 1
    ensures var cells := Project(ordered, notebook).value.cells; id in cells ==> cells[id].start < e.sequence
  {
    var n := |ordered|;
    forall i, j | 0 <= i < j < n ensures ordered[i].sequence < ordered[j].sequence {
      assert (ordered + [e])[i] == ordered[i] && (ordered + [e])[j] == ordered[j];
    }
    assert forall x :: x in ordered ==> x in ordered + [e];
    ProjectSound(ordered, notebook);
    if n > 0 {
      assert (ordered + [e])[n - 1] == ordered[n - 1] && (ordered + [e])[n] == e && ordered[n - 1] in ordered;
    }
  }

  // ---------------------------------------------------------------- streams that never raise

  // The reducer looks at what the event says about a code cell.
  predicate Matters(e: Event, notebook: string) {
    Narrative(e).None? && e.notebook == Some(notebook) && e.kind != Snapshotted
  }

  // Each cell is added once, complete, and every event that matters to the cell carries its attempt.
  ghost predicate WellEmitted(events: seq<Event>, notebook: string) {
    && (forall e :: e in events && Adds(e, notebook) ==>
          e.cell.Some? && e.cell.value.Given? && e.attempt.Some? && e.epoch.Some?)
    && (forall a, b :: a in events && b in events && Adds(a, notebook) && Adds(b, notebook) && a.cell == b.cell
          ==> a == b)
    && (forall a, e :: a in events && e in events && Adds(a, notebook) && Matters(e, notebook) && e.cell == a.cell
          ==> e.attempt.None? || e.attempt == a.attempt)
  }

  // Every code cell was added by an event read so far.
  ghost predicate Explained(s: State, events: seq<Event>, notebook: string) {
    forall id :: id in s.cells ==>
      if s.cells[id].Markdown? then id.Digest?
      else exists a :: a in events && Adds(a, notebook) && a.cell == Some(id) && a.attempt == Some(s.cells[id].attempt)
  }

  lemma ApplyExplained(s: State, e: Event, seen: seq<Event>, all: seq<Event>, notebook: string)
    requires Explained(s, seen, notebook) && WellEmitted(all, notebook) && e in all && e !in seen
    requires forall x :: x in seen ==> x in all
    ensures Apply(s, e, notebook).Ok? && Explained(Apply(s, e, notebook).value, seen + [e], notebook)
  {
    if Matters(e, notebook) && e.cell.Some? {
      var id := e.cell.value;
      if id in s.cells && s.cells[id].Code? {
        var a :| a in seen && Adds(a, notebook) && a.cell == Some(id) && a.attempt == Some(s.cells[id].attempt);
        assert e.attempt.None? || e.attempt == a.attempt;
        assert e.kind == CellAdded ==> e == a;
      }
    }
    assert Apply(s, e, notebook).Ok?;
    var s' := Apply(s, e, notebook).value;
    forall id | id in s'.cells
      ensures if s'.cells[id].Markdown? then id.Digest?
              else exists a :: a in seen + [e] && Adds(a, notebook) && a.cell == Some(id)
                               && a.attempt == Some(s'.cells[id].attempt)
    {
      if s'.cells[id].Code? {
        if id in s.cells {
          assert s.cells[id].Code? && s.cells[id].attempt == s'.cells[id].attempt;
          var a :| a in seen && Adds(a, notebook) && a.cell == Some(id) && a.attempt == Some(s.cells[id].attempt);
          assert a in seen + [e];
        } else {
          assert e in seen + [e] && Adds(e, notebook);
        }
      }
    }
  }

  lemma {:induction false} ProjectNeverRaises(ordered: seq<Event>, all: seq<Event>, notebook: string)
    requires Ascending(ordered) && WellEmitted(all, notebook) && forall x :: x in ordered ==> x in all
    ensures Project(ordered, notebook).Ok? && Explained(Project(ordered, notebook).value, ordered, notebook)
  {
    if ordered != [] {
      var n := |ordered| - 1;
      LastIsGreatest(ordered);
      assert ordered == ordered[..n] + [ordered[n]];
      ProjectNeverRaises(ordered[..n], all, notebook);
      ApplyExplained(Project(ordered[..n], notebook).value, ordered[n], ordered[..n], all, notebook);
    }
  }

  lemma ReduceNeverRaises(events: seq<Event>, notebook: string)
    requires Distinct(events) && WellEmitted(events, notebook)
    ensures Reduce(events, notebook).Ok?
  {
    SortAscends(events);
    ProjectNeverRaises(Sort(events), events, notebook);
  }

  // ---------------------------------------------------------------- what `python` and `close` emit

  // One capability the code of a cell called, and how that ended.
  datatype Capability = Capability(outcome: string, effect: Effect, refs: set<string>)

  type EndKind = kind: Kind | Terminal(kind) witness CompletedKind

  // One python call: `cell` and `attempt` are fresh uuids, and `restored` says that the kernel was restored first.
  datatype Call = Call(
    cell: string, attempt: string, epoch: string, source: string, policy: Policy, restored: bool,
    capabilities: seq<Capability>, end: EndKind, effect: Effect, outputs: string, refs: set<string>)

  // An event before the store gives it an id, a sequence and a time.
  const BLANK := Event("", 0, CellAdded, None, None, None, "", None, None, None, {}, None, "", 0)

  // An event that names another notebook field than the cells' own.
  function Record(name: string): Event { BLANK.(kind := OtherKind(name)) }

  function CellEvent(c: Call, notebook: string, kind: Kind): Event {
    BLANK.(kind := kind, notebook := Some(notebook), cell := Some(Given(c.cell)), attempt := Some(c.attempt))
  }

  function AddedEvent(c: Call, notebook: string, kind: Kind): Event {
    CellEvent(c, notebook, kind).(source := c.source, epoch := Some(c.epoch), policy := Some(c.policy))
  }

  function CapabilityEvents(c: Call, notebook: string, capabilities: seq<Capability>): seq<Event> {
    if capabilities == [] then []
    else
      var last := capabilities[|capabilities| - 1];
      CapabilityEvents(c, notebook, capabilities[..|capabilities| - 1])
      + [CellEvent(c, notebook, OtherKind("capability.requested")),
         CellEvent(c, notebook, OtherKind(last.outcome)).(effect := Some(last.effect), refs := last.refs)]
  }

  // Everything after the cell is added.
  function LaterEvents(c: Call, notebook: string): seq<Event> {
    [AddedEvent(c, notebook, Submitted)] + CapabilityEvents(c, notebook, c.capabilities)
    + [CellEvent(c, notebook, c.end).(
         epoch := Some(c.epoch), effect := Some(c.effect), outputs := c.outputs, refs := c.refs),
       Record("notebook.materialized")]
  }

  // The events of one call, in order; a call that stops early emits a prefix of them.
  function CallEvents(c: Call, notebook: string): seq<Event> {
    (if c.restored then [Record("repl.state_restored")] else [])
    + [AddedEvent(c, notebook, CellAdded)] + LaterEvents(c, notebook)
  }

  // Events of other components: narrative, snapshots, and what names no cell of this notebook.
  predicate Outsider(e: Event, notebook: string) { !Matters(e, notebook) }

  datatype Step = Emit(call: nat) | Outside(event: Event)

  // Any interleaving of calls and other components: what has been recorded, and how far each call is.
  function Trace(calls: seq<Call>, notebook: string, steps: seq<Step>): (r: (seq<Event>, seq<nat>))
    ensures |r.1| == |calls|
  {
    if steps == [] then ([], seq(|calls|, _ => 0))
    else
      var n := |steps| - 1;
      var (log, at) := Trace(calls, notebook, steps[..n]);
      match steps[n]
      case Outside(e) => (log + [e], at)
      case Emit(i) =>
        if i >= |calls| || at[i] >= |CallEvents(calls[i], notebook)| then (log, at)
        else (log + [CallEvents(calls[i], notebook)[at[i]]], at[i := at[i] + 1])
  }

  // Where in a call its cell is added.
  function AddIndex(c: Call): nat { if c.restored then 1 else 0 }

  predicate OfCall(e: Event, c: Call) { e.cell == Some(Given(c.cell)) && e.attempt == Some(c.attempt) }

  lemma {:induction false} CapabilitiesOfCall(c: Call, notebook: string, capabilities: seq<Capability>)
    ensures forall e :: e in CapabilityEvents(c, notebook, capabilities) ==> OfCall(e, c) && !Adds(e, notebook)
  {
    if capabilities != [] {
      CapabilitiesOfCall(c, notebook, capabilities[..|capabilities| - 1]);
    }
  }

  // A call adds one cell, complete; all it says about cells is about that one and carries its attempt.
  lemma CallShape(c: Call, notebook: string, k: nat)
    requires k < |CallEvents(c, notebook)|
    ensures var e := CallEvents(c, notebook)[k];
            && (Adds(e, notebook) <==> k == AddIndex(c)) && (Adds(e, notebook) ==> e.epoch.Some?)
            && (Matters(e, notebook) ==> OfCall(e, c))
  {
    CapabilitiesOfCall(c, notebook, c.capabilities);
    var capabilities := CapabilityEvents(c, notebook, c.capabilities);
    var later := LaterEvents(c, notebook);
    if k > AddIndex(c) {
      assert CallEvents(c, notebook)[k] == later[k - AddIndex(c) - 1];
      assert 0 < k - AddIndex(c) - 1 < |capabilities| + 1 ==>
               later[k - AddIndex(c) - 1] == capabilities[k - AddIndex(c) - 2];
    }
  }

  // What has been recorded: every event that matters is one of a call's, and a cell that has been added was added at
  // one place, by a call that is past adding it.
  ghost predicate Traced(calls: seq<Call>, notebook: string, log: seq<Event>, at: seq<nat>) {
    && |at| == |calls|
    && (forall p :: 0 <= p < |log| && Matters(log[p], notebook) ==>
          exists i :: 0 <= i < |calls| && OfCall(log[p], calls[i]))
    && (forall p :: 0 <= p < |log| && Adds(log[p], notebook) ==>
          log[p].epoch.Some?
          && exists i :: 0 <= i < |calls| && OfCall(log[p], calls[i]) && at[i] > AddIndex(calls[i]))
    && (forall p, q :: 0 <= p < q < |log| && Adds(log[p], notebook) && Adds(log[q], notebook) ==>
          log[p].cell != log[q].cell)
  }

  ghost predicate FreshCells(calls: seq<Call>) {
    forall i, j :: 0 <= i < j < |calls| ==> calls[i].cell != calls[j].cell
  }

  lemma OutsideTraced(calls: seq<Call>, notebook: string, log: seq<Event>, at: seq<nat>, e: Event)
    requires Traced(calls, notebook, log, at) && Outsider(e, notebook)
    ensures Traced(calls, notebook, log + [e], at)
  {
  }

  lemma EmitTraced(calls: seq<Call>, notebook: string, log: seq<Event>, at: seq<nat>, i: nat)
    requires Traced(calls, notebook, log, at) && FreshCells(calls)
    requires i < |calls| && at[i] < |CallEvents(calls[i], notebook)|
    ensures Traced(calls, notebook, log + [CallEvents(calls[i], notebook)[at[i]]], at[i := at[i] + 1])
  {
    var e := CallEvents(calls[i], notebook)[at[i]];
    CallShape(calls[i], notebook, at[i]);
    if Adds(e, notebook) {
      forall p | 0 <= p < |log| && Adds(log[p], notebook) ensures log[p].cell != e.cell {
        var j :| 0 <= j < |calls| && OfCall(log[p], calls[j]) && at[j] > AddIndex(calls[j]);
        assert j != i;
      }
    }
  }

  lemma {:induction false} TraceTraced(calls: seq<Call>, notebook: string, steps: seq<Step>)
    requires FreshCells(calls) && forall s :: s in steps && s.Outside? ==> Outsider(s.event, notebook)
    ensures Traced(calls, notebook, Trace(calls, notebook, steps).0, Trace(calls, notebook, steps).1)
  {
    if steps != [] {
      var n := |steps| - 1;
      TraceTraced(calls, notebook, steps[..n]);
      var (log, at) := Trace(calls, notebook, steps[..n]);
      match steps[n]
      case Outside(e) =>
        assert steps[n] in steps;
        OutsideTraced(calls, notebook, log, at, e);
      case Emit(i) =>
        if i < |calls| && at[i] < |CallEvents(calls[i], notebook)| {
          EmitTraced(calls, notebook, log, at, i);
        }
    }
  }

  // The store's part of an event.
  datatype Stamp = Stamp(id: string, at: int)

  function Stored(log: seq<Event>, stamps: seq<Stamp>): seq<Event>
    requires |log| == |stamps|
  {
    seq(|log|, p requires 0 <= p < |log| => log[p].(id := stamps[p].id, sequence := p + 1, at := stamps[p].at))
  }

  lemma StoredWellEmitted(
    calls: seq<Call>, notebook: string, log: seq<Event>, at: seq<nat>, stamps: seq<Stamp>)
    requires Traced(calls, notebook, log, at) && FreshCells(calls) && |log| == |stamps|
    ensures WellEmitted(Stored(log, stamps), notebook) && Distinct(Stored(log, stamps))
  {
    var events := Stored(log, stamps);
    forall p | 0 <= p < |log|
      ensures Adds(events[p], notebook) == Adds(log[p], notebook)
      ensures Matters(events[p], notebook) == Matters(log[p], notebook)
      ensures events[p].cell == log[p].cell && events[p].attempt == log[p].attempt && events[p].epoch == log[p].epoch
    {
    }
    forall a, e | a in events && e in events && Adds(a, notebook) && Matters(e, notebook) && e.cell == a.cell
      ensures e.attempt == a.attempt
    {
      var p :| 0 <= p < |events| && events[p] == a;
      var q :| 0 <= q < |events| && events[q] == e;
      SameAttempt(calls, notebook, log, at, p, q);
    }
  }

  lemma SameAttempt(calls: seq<Call>, notebook: string, log: seq<Event>, at: seq<nat>, p: nat, q: nat)
    requires Traced(calls, notebook, log, at) && FreshCells(calls) && p < |log| && q < |log|
    requires Matters(log[p], notebook) && Matters(log[q], notebook) && log[p].cell == log[q].cell
    ensures log[p].attempt == log[q].attempt
  {
    var i :| 0 <= i < |calls| && OfCall(log[p], calls[i]);
    var j :| 0 <= j < |calls| && OfCall(log[q], calls[j]);
  }

  // Over every interleaving of any number of calls with fresh cells, stopped anywhere, with narrative, snapshots and
  // records of others: the reducer never raises on what the store holds.
  lemma CallsNeverRaise(calls: seq<Call>, notebook: string, steps: seq<Step>, stamps: seq<Stamp>)
    requires FreshCells(calls) && forall s :: s in steps && s.Outside? ==> Outsider(s.event, notebook)
    requires |stamps| == |Trace(calls, notebook, steps).0|
    ensures Reduce(Stored(Trace(calls, notebook, steps).0, stamps), notebook).Ok?
  {
    var (log, at) := Trace(calls, notebook, steps);
    TraceTraced(calls, notebook, steps);
    StoredWellEmitted(calls, notebook, log, at, stamps);
    ReduceNeverRaises(Stored(log, stamps), notebook);
  }

  method ReduceNotebook(events: seq<Event>, notebook: string) returns (out: Result<State, ()>)
    ensures out == Reduce(events, notebook)
  {
    var ordered := Sort(events);
    var s := EMPTY;
    for i := 0 to |ordered|
      invariant Project(ordered[..i], notebook) == Ok(s)
    {
      assert ordered[..i + 1][..i] == ordered[..i];
      var e := ordered[i];
      var next := Apply(s, e, notebook);
      if next.Err? {
        RaisesForGood(ordered, i + 1, notebook);
        return next;
      }
      s := next.value;
    }
    assert ordered[..|ordered|] == ordered;
    out := Ok(s);
  }

  lemma {:induction false} RaisesForGood(ordered: seq<Event>, k: nat, notebook: string)
    requires k <= |ordered| && Project(ordered[..k], notebook).Err?
    ensures Project(ordered, notebook) == Project(ordered[..k], notebook)
  {
    if k < |ordered| {
      var n := |ordered| - 1;
      assert ordered[..n][..k] == ordered[..k];
      RaisesForGood(ordered[..n], k, notebook);
    } else {
      assert ordered[..k] == ordered;
    }
  }
}
