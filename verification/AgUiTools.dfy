// Tool-call correlation over whole ADK streams: one RESULT per call, RESULT after START, silence on replay.
module AgUiTools {
  import opened Wrappers
  import opened AgUiMapper

  // What each event id stands for in the stream under consideration.
  type Contents = string -> seq<Part>

  // The event carries its id's content, and no part is both a call and a result.
  ghost predicate Admissible(content: Contents, e: AdkEvent) {
    e.parts == content(e.id) && forall i :: 0 <= i < |e.parts| ==> e.parts[i].call.None? || e.parts[i].response.None?
  }

  predicate IsCallPart(content: Contents, id: string, index: nat) {
    index < |content(id)| && content(id)[index].call.Some? && content(id)[index].response.None?
  }

  predicate IsResultPart(content: Contents, id: string, index: nat) {
    index < |content(id)| && content(id)[index].response.Some? && content(id)[index].call.None?
  }

  // Every remembered id names the part it came from; pending calls have no result yet.
  ghost predicate Traceable(content: Contents, t: Tools) {
    && (forall c :: c in t.calls ==> IsCallPart(content, c.eventId, c.index))
    && (forall k :: k in t.resultEvents ==> IsResultPart(content, k.0, k.1))
    && (forall c :: c in t.results ==> c in t.calls || (c.eventId, c.index) in t.resultEvents)
    && (forall raw :: raw in t.pending ==>
          var c := t.pending[raw].call; c in t.calls && c !in t.results && c.rawId == raw)
  }

  // Entries are never overwritten or dropped, and what becomes pending is a new call.
  ghost predicate Remembers(t: Tools, t': Tools) {
    && (forall c :: c in t.calls ==> c in t'.calls && t'.calls[c] == t.calls[c])
    && (forall k :: k in t.resultEvents ==> k in t'.resultEvents && t'.resultEvents[k] == t.resultEvents[k])
    && t.results.Keys <= t'.results.Keys
    && forall raw :: raw in t'.pending ==>
         t'.pending[raw].call !in t.calls || (raw in t.pending && t'.pending[raw].call == t.pending[raw].call)
  }

  predicate CallRecorded(t: Tools, id: string, index: nat, call: ToolCall) {
    Lookup(t.calls, CallId(id, index, call.rawId)) == Some(Known(call.rawId, call.name, call.arguments))
  }

  predicate ResultRecorded(t: Tools, id: string, index: nat, response: ToolResponse) {
    (id, index) in t.resultEvents
    && t.resultEvents[(id, index)].rawId == response.rawId && t.resultEvents[(id, index)].content == response.content
  }

  // Replaying this part finds its own earlier occurrence.
  predicate Recorded(t: Tools, e: AdkEvent, index: nat)
    requires index < |e.parts|
  {
    var part := e.parts[index];
    part.thought
    || ((part.call.Some? ==> CallRecorded(t, e.id, index, part.call.value))
        && (part.response.Some? ==> ResultRecorded(t, e.id, index, part.response.value)))
  }

  predicate IsTool(p: Public) { p.CallStart? || p.CallArgs? || p.CallEnd? || p.CallResult? }

  predicate Quiet(out: seq<Public>) { forall p :: p in out ==> !IsTool(p) }

  // ---------------------------------------------------------------- single parts

  lemma CallTraceable(content: Contents, t: Tools, id: string, index: nat, call: ToolCall)
    requires Traceable(content, t) && IsCallPart(content, id, index)
    ensures Traceable(content, PushCall(t, id, index, call).0)
  {
    var c, t' := CallId(id, index, call.rawId), PushCall(t, id, index, call).0;
    assert c !in t.calls ==> c !in t.results;
    forall raw | raw in t'.pending
      ensures var asked := t'.pending[raw].call; asked in t'.calls && asked !in t'.results && asked.rawId == raw
    {
    }
  }

  lemma CallRemembers(t: Tools, id: string, index: nat, call: ToolCall)
    ensures var (t', r) := PushCall(t, id, index, call);
            Remembers(t, t') && (r.Ok? ==> CallRecorded(t', id, index, call))
  {
  }

  lemma CallStep(content: Contents, t: Tools, id: string, index: nat, call: ToolCall)
    requires Traceable(content, t) && IsCallPart(content, id, index)
    ensures var (t', r) := PushCall(t, id, index, call);
            Traceable(content, t') && Remembers(t, t') && (r.Ok? ==> CallRecorded(t', id, index, call))
  {
    CallTraceable(content, t, id, index, call);
    CallRemembers(t, id, index, call);
  }

  // The call a result answers: the pending one of its provider id, or one of its own.
  function Answers(t: Tools, id: string, index: nat, response: ToolResponse): CallId {
    if response.rawId in t.pending then t.pending[response.rawId].call else CallId(id, index, response.rawId)
  }

  lemma ResultIsNew(content: Contents, t: Tools, id: string, index: nat, response: ToolResponse)
    requires Traceable(content, t) && IsResultPart(content, id, index) && (id, index) !in t.resultEvents
    ensures Answers(t, id, index, response) !in t.results
  {
  }

  lemma ResultTraceable(content: Contents, t: Tools, id: string, index: nat, response: ToolResponse)
    requires Traceable(content, t) && IsResultPart(content, id, index)
    ensures Traceable(content, PushResult(t, id, index, response).0)
  {
    if (id, index) !in t.resultEvents {
      ResultIsNew(content, t, id, index, response);
      var t' := PushResult(t, id, index, response).0;
      forall other | other in t'.pending ensures t'.pending[other].call != Answers(t, id, index, response) {
        assert other in t.pending && t.pending[other].call.rawId == other;
      }
    }
  }

  lemma ResultRemembers(content: Contents, t: Tools, id: string, index: nat, response: ToolResponse)
    requires Traceable(content, t) && IsResultPart(content, id, index)
    ensures var (t', r) := PushResult(t, id, index, response);
            Remembers(t, t') && (r.Ok? ==> ResultRecorded(t', id, index, response))
  {
    if (id, index) !in t.resultEvents {
      ResultIsNew(content, t, id, index, response);
    }
  }

  // Where a RESULT goes: to the pending call of its provider id, or to an id of its own.
  lemma ResultStep(content: Contents, t: Tools, id: string, index: nat, response: ToolResponse)
    requires Traceable(content, t) && IsResultPart(content, id, index)
    ensures var (t', r) := PushResult(t, id, index, response);
            && Traceable(content, t') && Remembers(t, t')
            && (r.Ok? ==> ResultRecorded(t', id, index, response))
            && (r.Ok? && r.value != [] ==>
                  var c := Answers(t, id, index, response);
                  r.value == [CallResult(c, response.content)] && c !in t.results && c in t'.results)
  {
    ResultTraceable(content, t, id, index, response);
    ResultRemembers(content, t, id, index, response);
    if (id, index) !in t.resultEvents {
      ResultIsNew(content, t, id, index, response);
    }
  }

  // ---------------------------------------------------------------- one provider id at a time

  // Where the conversation about a provider id stands: nothing shown, a call without its result, or a call answered.
  datatype Talk =
    | Unheard | Asked(call: CallId, name: string, arguments: string) | Told(call: CallId, content: string)

  function TalkOf(t: Tools, raw: string): Talk {
    if raw in t.pending then Asked(t.pending[raw].call, t.pending[raw].name, t.pending[raw].arguments)
    else if raw in t.lastResults then Told(t.lastResults[raw].call, t.lastResults[raw].content)
    else Unheard
  }

  // A call that was not seen before: the one awaited is announced again in silence or contradicted; any other is shown.
  ghost predicate Calls(before: Talk, own: CallId, call: ToolCall, out: Result<seq<Public>, ()>, after: Talk) {
    match before
    case Asked(_, name, arguments) =>
      after == before && if name == call.name && arguments == call.arguments then out == Ok([]) else out.Err?
    case _ =>
      && out == Ok([CallStart(own, call.name), CallArgs(own, call.arguments), CallEnd(own)])
      && after == Asked(own, call.name, call.arguments)
  }

  // A result that was not seen before: it answers the awaited call, repeats or contradicts the last answer, or stands
  // for itself.
  ghost predicate Replies(before: Talk, own: CallId, content: string, out: Result<seq<Public>, ()>, after: Talk) {
    match before
    case Asked(call, _, _) => out == Ok([CallResult(call, content)]) && after == Told(call, content)
    case Told(_, last) => after == before && if last == content then out == Ok([]) else out.Err?
    case Unheard => out == Ok([CallResult(own, content)]) && after == Told(own, content)
  }

  // Calls: a part seen before is silent, or raises when its content changed, and anything else moves the conversation
  // about its own provider id alone.
  lemma CallTalks(t: Tools, id: string, index: nat, call: ToolCall)
    ensures var (t', r) := PushCall(t, id, index, call);
            var own := CallId(id, index, call.rawId);
            && (forall raw :: raw != call.rawId ==> TalkOf(t', raw) == TalkOf(t, raw))
            && if own in t.calls
               then t' == t && if CallRecorded(t, id, index, call) then r == Ok([]) else r.Err?
               else Calls(TalkOf(t, call.rawId), own, call, r, TalkOf(t', call.rawId))
  {
  }

  lemma ResultTalks(content: Contents, t: Tools, id: string, index: nat, response: ToolResponse)
    requires Traceable(content, t) && IsResultPart(content, id, index)
    ensures var (t', r) := PushResult(t, id, index, response);
            && (forall raw :: raw != response.rawId ==> TalkOf(t', raw) == TalkOf(t, raw))
            && if (id, index) in t.resultEvents
               then t' == t && if ResultRecorded(t, id, index, response) then r == Ok([]) else r.Err?
               else Replies(TalkOf(t, response.rawId), CallId(id, index, response.rawId), response.content, r,
                            TalkOf(t', response.rawId))
  {
    if (id, index) !in t.resultEvents {
      ResultIsNew(content, t, id, index, response);
    }
  }

  lemma TextQuiet(c: Config, s: State, id: string, author: string, partial: bool, index: nat, text: string)
    ensures var (s', out) := PushText(c, s, id, author, partial, index, text); s'.tools == s.tools && Quiet(out)
  {
  }

  lemma PartTextQuiet(c: Config, s: State, e: AdkEvent, index: nat)
    requires index < |e.parts|
    ensures var (s', out) := PartText(c, s, e, index); s'.tools == s.tools && Quiet(out)
  {
    TextQuiet(c, s, e.id, Author(c, e), e.partial, index, e.parts[index].text);
  }

  lemma PreambleQuiet(c: Config, s: State, e: AdkEvent)
    ensures var (s', out) := Preamble(c, s, e); s'.tools == s.tools && Quiet(out)
  {
    var s1 := if e.failed then Close(s).0 else s;
    TextQuiet(c, s1, e.id, "coding_reply", true, 0, e.publicDelta);
  }

  lemma RecordedLater(t: Tools, t': Tools, e: AdkEvent, index: nat)
    requires index < |e.parts| && Recorded(t, e, index) && Remembers(t, t')
    ensures Recorded(t', e, index)
  {
  }

  lemma RemembersTwice(a: Tools, b: Tools, c: Tools)
    requires Remembers(a, b) && Remembers(b, c)
    ensures Remembers(a, c)
  {
  }

  // What one admissible part does to the correlation maps, and what tool events it shows.
  function ToolPart(t: Tools, e: AdkEvent, index: nat): (Tools, Result<seq<Public>, ()>)
    requires index < |e.parts|
  {
    var part := e.parts[index];
    if part.thought then (t, Ok([]))
    else if part.call.Some? then PushCall(t, e.id, index, part.call.value)
    else if part.response.Some? then PushResult(t, e.id, index, part.response.value)
    else (t, Ok([]))
  }

  lemma PartIsToolPart(content: Contents, c: Config, s: State, e: AdkEvent, index: nat)
    requires Admissible(content, e) && index < |e.parts|
    ensures var (s', r) := PushPart(c, s, e, index);
            var (t', tr) := ToolPart(s.tools, e, index);
            && s'.tools == t' && (r.Ok? <==> tr.Ok?)
            && (r.Ok? ==> exists quiet :: Quiet(quiet) && r.value == quiet + tr.value)
  {
    var part := e.parts[index];
    var (s', r) := PushPart(c, s, e, index);
    var tr := ToolPart(s.tools, e, index).1;
    if part.thought {
      assert r.value == [] + [];
    } else {
      var (s1, texts) := PartText(c, s, e, index);
      PartTextQuiet(c, s, e, index);
      if part.call.None? && part.response.None? {
        assert r.value == texts + [];
      } else if r.Ok? {
        assert Quiet(texts + Close(s1).1);
        assert r.value == (texts + Close(s1).1) + tr.value;
      }
    }
  }

  lemma ToolPartStep(content: Contents, t: Tools, e: AdkEvent, index: nat)
    requires Traceable(content, t) && Admissible(content, e) && index < |e.parts|
    ensures var (t', r) := ToolPart(t, e, index);
            Traceable(content, t') && Remembers(t, t') && (r.Ok? ==> Recorded(t', e, index))
  {
    var part := e.parts[index];
    if !part.thought {
      if part.call.Some? {
        CallStep(content, t, e.id, index, part.call.value);
      } else if part.response.Some? {
        ResultStep(content, t, e.id, index, part.response.value);
      }
    }
  }

  // ---------------------------------------------------------------- replay

  // After `count` parts: ids stay traceable, nothing is forgotten, and if all went well every part is recorded.
  ghost predicate Kept(
    content: Contents, before: Tools, next: (State, Result<seq<Public>, ()>), e: AdkEvent, count: nat)
  {
    && count <= |e.parts| && Traceable(content, next.0.tools) && Remembers(before, next.0.tools)
    && (next.1.Ok? ==> forall i :: 0 <= i < count ==> Recorded(next.0.tools, e, i))
  }

  // What one part, pushed after `t`, leaves behind.
  ghost predicate PartKept(
    content: Contents, t: Tools, next: (State, Result<seq<Public>, ()>), e: AdkEvent, index: nat)
  {
    && index < |e.parts| && Traceable(content, next.0.tools) && Remembers(t, next.0.tools)
    && (next.1.Ok? ==> Recorded(next.0.tools, e, index))
  }

  lemma KeptJoin(
    content: Contents, before: Tools, mid: (State, Result<seq<Public>, ()>),
    next: (State, Result<seq<Public>, ()>), e: AdkEvent, count: nat)
    requires Kept(content, before, mid, e, count) && PartKept(content, mid.0.tools, next, e, count)
    ensures Kept(content, before, Join(mid, next), e, count + 1)
  {
    RemembersTwice(before, mid.0.tools, next.0.tools);
    if mid.1.Ok? {
      forall i | 0 <= i < count ensures Recorded(next.0.tools, e, i) {
        RecordedLater(mid.0.tools, next.0.tools, e, i);
      }
    }
  }

  lemma PartRemembers(content: Contents, c: Config, s: State, e: AdkEvent, index: nat)
    requires Traceable(content, s.tools) && Admissible(content, e) && index < |e.parts|
    ensures PartKept(content, s.tools, PushPart(c, s, e, index), e, index)
  {
    PartIsToolPart(content, c, s, e, index);
    ToolPartStep(content, s.tools, e, index);
  }

  lemma KeptPart(
    content: Contents, c: Config, before: Tools, mid: (State, Result<seq<Public>, ()>), e: AdkEvent, count: nat)
    requires Kept(content, before, mid, e, count) && Admissible(content, e) && count < |e.parts|
    ensures Kept(content, before, Join(mid, PushPart(c, mid.0, e, count)), e, count + 1)
  {
    PartRemembers(content, c, mid.0, e, count);
    KeptJoin(content, before, mid, PushPart(c, mid.0, e, count), e, count);
  }

  lemma PartsRemember(content: Contents, c: Config, s: State, e: AdkEvent, count: nat)
    requires Traceable(content, s.tools) && Admissible(content, e) && count <= |e.parts|
    ensures Kept(content, s.tools, PushParts(c, s, e, count), e, count)
  {
    var holds := (k: nat, next: (State, Result<seq<Public>, ()>)) => Kept(content, s.tools, next, e, k);
    forall k: nat, mid | k < |e.parts| && holds(k, mid) ensures holds(k + 1, Join(mid, PushPart(c, mid.0, e, k))) {
      KeptPart(content, c, s.tools, mid, e, k);
    }
    EveryPart(c, s, e, count, holds);
  }

  ghost predicate FullyRecorded(t: Tools, e: AdkEvent) {
    e.fromUser || forall i :: 0 <= i < |e.parts| ==> Recorded(t, e, i)
  }

  // Whether or not the push succeeds: ids stay traceable, nothing is forgotten, and an accepted event is recorded.
  lemma PushRemembers(content: Contents, c: Config, s: State, e: AdkEvent)
    requires Traceable(content, s.tools) && Admissible(content, e)
    ensures var (s', r) := Push(c, s, e);
            && Traceable(content, s'.tools) && Remembers(s.tools, s'.tools)
            && (r.Ok? ==> FullyRecorded(s'.tools, e))
  {
    if !e.fromUser {
      PreambleQuiet(c, s, e);
      PartsRemember(content, c, Preamble(c, s, e).0, e, |e.parts|);
    }
  }

  ghost predicate Silent(t: Tools, next: (State, Result<seq<Public>, ()>)) {
    next.0.tools == t && next.1.Ok? && Quiet(next.1.value)
  }

  lemma SilentJoin(t: Tools, mid: (State, Result<seq<Public>, ()>), next: (State, Result<seq<Public>, ()>))
    requires Silent(t, mid) && Silent(t, next)
    ensures Silent(t, Join(mid, next))
  {
  }

  lemma RecordedPartSilent(content: Contents, c: Config, s: State, e: AdkEvent, index: nat)
    requires Admissible(content, e) && index < |e.parts| && Recorded(s.tools, e, index)
    ensures Silent(s.tools, PushPart(c, s, e, index))
  {
    assert ToolPart(s.tools, e, index) == (s.tools, Ok([]));
    PartIsToolPart(content, c, s, e, index);
  }

  lemma RecordedPartsSilent(content: Contents, c: Config, s: State, e: AdkEvent, count: nat)
    requires Admissible(content, e) && count <= |e.parts|
    requires forall i :: 0 <= i < |e.parts| ==> Recorded(s.tools, e, i)
    ensures Silent(s.tools, PushParts(c, s, e, count))
  {
    var holds := (k: nat, next: (State, Result<seq<Public>, ()>)) => Silent(s.tools, next);
    forall k: nat, mid | k < |e.parts| && holds(k, mid) ensures holds(k + 1, Join(mid, PushPart(c, mid.0, e, k))) {
      RecordedPartSilent(content, c, mid.0, e, k);
      SilentJoin(s.tools, mid, PushPart(c, mid.0, e, k));
    }
    EveryPart(c, s, e, count, holds);
  }

  ghost predicate AllAdmissible(content: Contents, events: seq<AdkEvent>) {
    forall k :: 0 <= k < |events| ==> Admissible(content, events[k])
  }

  lemma {:induction false} StreamTraceable(content: Contents, c: Config, events: seq<AdkEvent>)
    requires AllAdmissible(content, events)
    ensures Traceable(content, Stream(c, events).0.tools)
  {
    if events != [] {
      var n := |events| - 1;
      StreamTraceable(content, c, events[..n]);
      PushRemembers(content, c, Stream(c, events[..n]).0, events[n]);
    }
  }

  lemma {:induction false} StreamRemembers(content: Contents, c: Config, events: seq<AdkEvent>, k: nat)
    requires AllAdmissible(content, events) && k <= |events|
    ensures Remembers(Stream(c, events[..k]).0.tools, Stream(c, events).0.tools)
    decreases |events|
  {
    if k == |events| {
      assert events[..k] == events;
    } else {
      var n := |events| - 1;
      StreamRemembers(content, c, events[..n], k);
      assert events[..n][..k] == events[..k];
      StreamTraceable(content, c, events[..n]);
      PushRemembers(content, c, Stream(c, events[..n]).0, events[n]);
      RemembersTwice(Stream(c, events[..k]).0.tools, Stream(c, events[..n]).0.tools, Stream(c, events).0.tools);
    }
  }

  // Pushing an accepted event again, at any later point and whatever was rejected in between, is accepted and
  // emits no tool event.
  lemma ReplayIsSilent(content: Contents, c: Config, events: seq<AdkEvent>, k: nat)
    requires AllAdmissible(content, events) && k < |events|
    requires Push(c, Stream(c, events[..k]).0, events[k]).1.Ok?
    ensures var r := Push(c, Stream(c, events).0, events[k]).1; r.Ok? && Quiet(r.value)
  {
    var e := events[k];
    assert Admissible(content, e);
    StreamTraceable(content, c, events[..k]);
    PushRemembers(content, c, Stream(c, events[..k]).0, e);
    assert events[..k + 1][..k] == events[..k] && events[..k + 1][k] == e;
    var once := Stream(c, events[..k + 1]).0.tools;
    var s := Stream(c, events).0;
    StreamRemembers(content, c, events, k + 1);
    if !e.fromUser {
      forall i | 0 <= i < |e.parts| ensures Recorded(s.tools, e, i) {
        RecordedLater(once, s.tools, e, i);
      }
      PreambleQuiet(c, s, e);
      RecordedPartsSilent(content, c, Preamble(c, s, e).0, e, |e.parts|);
    }
  }

  // ---------------------------------------------------------------- correlation

  // What a reader of the public stream has seen: the call ids started, those answered, and among these the calls
  // answered without a start.
  datatype Seen = Seen(started: set<CallId>, answered: set<CallId>, orphans: set<CallId>)

  const NOTHING := Some(Seen({}, {}, {}))

  // Reading one more event; None once a call starts twice or is answered twice.
  function Track(content: Contents, seen: Option<Seen>, p: Public): Option<Seen> {
    match (seen, p)
    case (None, _) => None
    case (Some(v), CallStart(c, _)) => if c in v.started then None else Some(v.(started := v.started + {c}))
    case (Some(v), CallResult(c, _)) =>
      if c in v.answered then None
      else
        var orphan := IsCallPart(content, c.eventId, c.index) && c !in v.started;
        Some(v.(answered := v.answered + {c}, orphans := v.orphans + (if orphan then {c} else {})))
    case _ => seen
  }

  function TrackAll(content: Contents, seen: Option<Seen>, out: seq<Public>): Option<Seen> {
    if out == [] then seen else Track(content, TrackAll(content, seen, out[..|out| - 1]), out[|out| - 1])
  }

  lemma {:induction false} TrackConcat(content: Contents, seen: Option<Seen>, a: seq<Public>, b: seq<Public>)
    ensures TrackAll(content, seen, a + b) == TrackAll(content, TrackAll(content, seen, a), b)
  {
    if b == [] {
      assert a + b == a;
    } else {
      var n := |b| - 1;
      assert (a + b)[..|a| + n] == a + b[..n];
      TrackConcat(content, seen, a, b[..n]);
    }
  }

  lemma {:induction false} TrackQuiet(content: Contents, seen: Option<Seen>, out: seq<Public>)
    requires Quiet(out)
    ensures TrackAll(content, seen, out) == seen
  {
    if out != [] {
      var n := |out| - 1;
      forall p | p in out[..n] ensures !IsTool(p) {
        assert p in out;
      }
      TrackQuiet(content, seen, out[..n]);
      assert out[n] in out;
    }
  }

  // What has been seen agrees with the correlation maps; `lost` are the calls whose START no reader ever saw.
  ghost predicate Agrees(t: Tools, seen: Option<Seen>, lost: set<CallId>) {
    && seen.Some?
    && seen.value.started + lost <= t.calls.Keys && seen.value.started !! lost
    && seen.value.answered <= t.results.Keys
    && seen.value.orphans == seen.value.answered * lost
    && forall raw :: raw in t.pending ==> t.pending[raw].call in seen.value.started + lost
  }

  lemma TrackOne(content: Contents, seen: Option<Seen>, p: Public)
    ensures TrackAll(content, seen, [p]) == Track(content, seen, p)
  {
    assert [p][..0] == [];
  }

  // A tool block starts its call and answers nothing.
  lemma TrackBlock(content: Contents, seen: Seen, c: CallId, name: string, arguments: string)
    requires c !in seen.started
    ensures TrackAll(content, Some(seen), [CallStart(c, name), CallArgs(c, arguments), CallEnd(c)])
            == Some(seen.(started := seen.started + {c}))
  {
    var a, b, d := CallStart(c, name), CallArgs(c, arguments), CallEnd(c);
    TrackOne(content, Some(seen), a);
    assert [a, b][..1] == [a] && [a, b, d][..2] == [a, b];
    assert TrackAll(content, Some(seen), [a, b]) == Some(seen.(started := seen.started + {c}));
  }

  lemma CallTracks(
    content: Contents, t: Tools, seen: Option<Seen>, lost: set<CallId>, id: string, index: nat, call: ToolCall)
    requires Traceable(content, t) && Agrees(t, seen, lost) && PushCall(t, id, index, call).1.Ok?
    ensures var (t', r) := PushCall(t, id, index, call); Agrees(t', TrackAll(content, seen, r.value), lost)
  {
    var c := CallId(id, index, call.rawId);
    if PushCall(t, id, index, call).1.value != [] {
      TrackBlock(content, seen.value, c, call.name, call.arguments);
    }
  }

  // What a result changes in the maps a reader's view depends on.
  ghost predicate Answered(t: Tools, t': Tools) {
    && t'.calls == t.calls && t.results.Keys <= t'.results.Keys
    && forall raw :: raw in t'.pending ==> raw in t.pending && t'.pending[raw] == t.pending[raw]
  }

  lemma ResultShape(content: Contents, t: Tools, id: string, index: nat, response: ToolResponse)
    requires Traceable(content, t) && IsResultPart(content, id, index)
    ensures Answered(t, PushResult(t, id, index, response).0)
  {
  }

  lemma AgreesAfterResult(
    content: Contents, t: Tools, t': Tools, seen: Option<Seen>, lost: set<CallId>, c: CallId, text: string)
    requires Agrees(t, seen, lost) && Answered(t, t') && c in t'.results && c !in t.results
    requires c in lost ==> IsCallPart(content, c.eventId, c.index)
    requires IsCallPart(content, c.eventId, c.index) ==> c in seen.value.started + lost
    ensures Agrees(t', TrackAll(content, seen, [CallResult(c, text)]), lost)
  {
    TrackOne(content, seen, CallResult(c, text));
  }

  lemma ResultTracks(
    content: Contents, t: Tools, seen: Option<Seen>, lost: set<CallId>, id: string, index: nat, response: ToolResponse)
    requires Traceable(content, t) && Agrees(t, seen, lost) && IsResultPart(content, id, index)
    requires PushResult(t, id, index, response).1.Ok?
    ensures var (t', r) := PushResult(t, id, index, response); Agrees(t', TrackAll(content, seen, r.value), lost)
  {
    ResultStep(content, t, id, index, response);
    ResultShape(content, t, id, index, response);
    var next := PushResult(t, id, index, response);
    if next.1.value != [] {
      AgreesAfterResult(content, t, next.0, seen, lost, Answers(t, id, index, response), response.content);
    }
  }

  // The maps and a reader's view after an accepted part, event or stream.
  ghost predicate Tracks(
    content: Contents, seen: Option<Seen>, lost: set<CallId>, next: (State, Result<seq<Public>, ()>))
  {
    next.1.Ok? ==>
      Traceable(content, next.0.tools) && Agrees(next.0.tools, TrackAll(content, seen, next.1.value), lost)
  }

  lemma ToolPartTracks(
    content: Contents, t: Tools, seen: Option<Seen>, lost: set<CallId>, e: AdkEvent, index: nat)
    requires Traceable(content, t) && Agrees(t, seen, lost) && Admissible(content, e) && index < |e.parts|
    requires ToolPart(t, e, index).1.Ok?
    ensures var (t', r) := ToolPart(t, e, index); Agrees(t', TrackAll(content, seen, r.value), lost)
  {
    var part := e.parts[index];
    if !part.thought {
      if part.call.Some? {
        CallTracks(content, t, seen, lost, e.id, index, part.call.value);
      } else if part.response.Some? {
        ResultTracks(content, t, seen, lost, e.id, index, part.response.value);
      }
    }
  }

  lemma PartTracks(
    content: Contents, c: Config, s: State, seen: Option<Seen>, lost: set<CallId>, e: AdkEvent, index: nat)
    requires Traceable(content, s.tools) && Agrees(s.tools, seen, lost) && Admissible(content, e) && index < |e.parts|
    ensures Tracks(content, seen, lost, PushPart(c, s, e, index))
  {
    PartIsToolPart(content, c, s, e, index);
    ToolPartStep(content, s.tools, e, index);
    var (s', r) := PushPart(c, s, e, index);
    if r.Ok? {
      ToolPartTracks(content, s.tools, seen, lost, e, index);
      var shown := ToolPart(s.tools, e, index).1.value;
      var quiet :| Quiet(quiet) && r.value == quiet + shown;
      TrackConcat(content, seen, quiet, shown);
      TrackQuiet(content, seen, quiet);
    }
  }

  lemma TracksJoin(
    content: Contents, c: Config, seen: Option<Seen>, lost: set<CallId>, mid: (State, Result<seq<Public>, ()>),
    e: AdkEvent, index: nat)
    requires Tracks(content, seen, lost, mid) && Admissible(content, e) && index < |e.parts|
    ensures Tracks(content, seen, lost, Join(mid, PushPart(c, mid.0, e, index)))
  {
    var next := PushPart(c, mid.0, e, index);
    if mid.1.Ok? && next.1.Ok? {
      PartTracks(content, c, mid.0, TrackAll(content, seen, mid.1.value), lost, e, index);
      TrackConcat(content, seen, mid.1.value, next.1.value);
    }
  }

  lemma PartsTrack(
    content: Contents, c: Config, s: State, seen: Option<Seen>, lost: set<CallId>, e: AdkEvent, count: nat)
    requires Traceable(content, s.tools) && Agrees(s.tools, seen, lost) && Admissible(content, e) && count <= |e.parts|
    ensures Tracks(content, seen, lost, PushParts(c, s, e, count))
  {
    var holds := (k: nat, next: (State, Result<seq<Public>, ()>)) => Tracks(content, seen, lost, next);
    forall k: nat, mid | k < |e.parts| && holds(k, mid) ensures holds(k + 1, Join(mid, PushPart(c, mid.0, e, k))) {
      TracksJoin(content, c, seen, lost, mid, e, k);
    }
    EveryPart(c, s, e, count, holds);
  }

  lemma PushTracks(content: Contents, c: Config, s: State, seen: Option<Seen>, lost: set<CallId>, e: AdkEvent)
    requires Traceable(content, s.tools) && Agrees(s.tools, seen, lost) && Admissible(content, e)
    ensures Tracks(content, seen, lost, Push(c, s, e))
  {
    if !e.fromUser && Push(c, s, e).1.Ok? {
      var (s1, out1) := Preamble(c, s, e);
      PreambleQuiet(c, s, e);
      PartsTrack(content, c, s1, seen, lost, e, |e.parts|);
      var (s2, r2) := PushParts(c, s1, e, |e.parts|);
      TrackQuiet(content, seen, out1);
      TrackConcat(content, seen, out1, r2.value);
      TrackQuiet(content, TrackAll(content, seen, r2.value), Trailer(e));
      TrackConcat(content, seen, out1 + r2.value, Trailer(e));
    }
  }

  // The calls that rejected pushes recorded: their START was never published.
  function LostCalls(c: Config, events: seq<AdkEvent>): set<CallId> {
    if events == [] then {}
    else
      var n := |events| - 1;
      var s := Stream(c, events[..n]).0;
      var (s', r) := Push(c, s, events[n]);
      LostCalls(c, events[..n]) + (if r.Ok? then {} else s'.tools.calls.Keys - s.tools.calls.Keys)
  }

  // A rejected push shows nothing: what it newly recorded is lost.
  lemma AgreesAfterReject(content: Contents, t: Tools, t': Tools, seen: Option<Seen>, lost: set<CallId>)
    requires Traceable(content, t) && Traceable(content, t') && Agrees(t, seen, lost) && Remembers(t, t')
    requires forall c :: c in seen.value.answered ==> c !in t'.calls || c in t.calls
    ensures Agrees(t', seen, lost + (t'.calls.Keys - t.calls.Keys))
  {
  }

  lemma AnsweredAreOld(content: Contents, t: Tools, t': Tools, c: CallId)
    requires Traceable(content, t) && Traceable(content, t') && Remembers(t, t') && c in t.results && c in t'.calls
    ensures c in t.calls
  {
  }

  // Over any stream, rejected pushes included: each call id starts at most once and is answered at most once, and the
  // calls answered without a start are exactly the answered ones among those a rejected push recorded.
  lemma {:induction false} StreamCorrelated(content: Contents, c: Config, events: seq<AdkEvent>)
    requires AllAdmissible(content, events)
    ensures var (s, out) := Stream(c, events);
            Traceable(content, s.tools) && Agrees(s.tools, TrackAll(content, NOTHING, out), LostCalls(c, events))
  {
    if events != [] {
      var n := |events| - 1;
      var e := events[n];
      StreamCorrelated(content, c, events[..n]);
      var (s, out) := Stream(c, events[..n]);
      var seen, lost := TrackAll(content, NOTHING, out), LostCalls(c, events[..n]);
      var next := Push(c, s, e);
      PushRemembers(content, c, s, e);
      if next.1.Ok? {
        PushTracks(content, c, s, seen, lost, e);
        TrackConcat(content, NOTHING, out, next.1.value);
      } else {
        EmptySides(out);
        forall call | call in seen.value.answered && call in next.0.tools.calls ensures call in s.tools.calls {
          AnsweredAreOld(content, s.tools, next.0.tools, call);
        }
        AgreesAfterReject(content, s.tools, next.0.tools, seen, lost);
      }
    }
  }

  // Without rejected pushes no START is lost.
  lemma {:induction false} AcceptedLosesNone(c: Config, events: seq<AdkEvent>)
    requires Accepted(c, events)
    ensures LostCalls(c, events) == {}
  {
    if events != [] {
      var n := |events| - 1;
      AcceptedPrefix(c, events, n);
      AcceptedLosesNone(c, events[..n]);
    }
  }

  // A call's result that no start of the call precedes.
  ghost predicate Orphan(content: Contents, out: seq<Public>, k: nat) {
    && k < |out| && out[k].CallResult? && IsCallPart(content, out[k].call.eventId, out[k].call.index)
    && forall i :: 0 <= i < k ==> !(out[i].CallStart? && out[i].call == out[k].call)
  }

  // What a stream that tracks means, event by event: no call starts twice or is answered twice, and the orphans are
  // the calls answered before any start.
  lemma {:induction false} TrackedMeans(content: Contents, out: seq<Public>, j: nat, k: nat)
    requires TrackAll(content, NOTHING, out).Some? && k < |out|
    ensures j < k && out[j].CallStart? && out[k].CallStart? ==> out[j].call != out[k].call
    ensures j < k && out[j].CallResult? && out[k].CallResult? ==> out[j].call != out[k].call
    ensures out[k].CallResult? ==>
      (out[k].call in TrackAll(content, NOTHING, out).value.orphans <==> Orphan(content, out, k))
    decreases |out|
  {
    var n := |out| - 1;
    SeenMeans(content, out[..n]);
    if k < n {
      TrackedMeans(content, out[..n], j, k);
      assert out[k] == out[..n][k];
      assert Orphan(content, out, k) <==> Orphan(content, out[..n], k);
    }
  }

  lemma {:induction false} SeenMeans(content: Contents, out: seq<Public>)
    requires TrackAll(content, NOTHING, out).Some?
    ensures var seen := TrackAll(content, NOTHING, out).value;
            && seen.orphans <= seen.answered
            && (forall c ::
                  c in seen.started <==> exists i :: 0 <= i < |out| && out[i].CallStart? && out[i].call == c)
            && (forall c ::
                  c in seen.answered <==> exists i :: 0 <= i < |out| && out[i].CallResult? && out[i].call == c)
  {
    if out != [] {
      var n := |out| - 1;
      SeenMeans(content, out[..n]);
      forall i | 0 <= i < n ensures out[..n][i] == out[i] {
      }
    }
  }

  // Every RESULT of a call follows its START exactly when no call that a rejected push recorded is answered.
  lemma StartsComeFirstIff(content: Contents, c: Config, events: seq<AdkEvent>)
    requires AllAdmissible(content, events)
    ensures var out := Stream(c, events).1;
            (forall k :: !Orphan(content, out, k))
            <==> forall k :: 0 <= k < |out| && out[k].CallResult? ==> out[k].call !in LostCalls(c, events)
  {
    var out := Stream(c, events).1;
    StreamCorrelated(content, c, events);
    SeenMeans(content, out);
    forall k | 0 <= k < |out| && out[k].CallResult?
      ensures Orphan(content, out, k) <==> out[k].call in LostCalls(c, events)
    {
      TrackedMeans(content, out, 0, k);
    }
  }

  // ---------------------------------------------------------------- a result without its start

  const LOST := CallId("2", 0, "q")

  // A call; a new call and, in the same event, the first one's provider id with other arguments; the new call's result.
  function Orphaning(k: nat): AdkEvent {
    if k == 0 then Clashing(0)
    else if k == 1 then
      SILENT.(id := "2", parts := [Part(false, "", Some(ToolCall("q", "list", "{}")), None),
                                   Part(false, "", Some(ToolCall("r", "read", "{1}")), None)])
    else SILENT.(id := "3", parts := [Part(false, "", None, Some(ToolResponse("q", "x")))])
  }

  lemma SecondCallRaises(c: Config, s: State)
    requires !c.explicitMessages && s.message.None? && s.tools.calls.Keys == {CallId("1", 0, "r")}
    requires s.tools.pending == map["r" := Pending(CallId("1", 0, "r"), "read", "{}")] && s.tools.results == map[]
    requires s.tools.resultEvents == map[]
    ensures var (s', r) := Push(c, s, Orphaning(1));
            && r.Err? && s'.message.None? && s'.tools.results == map[] && s'.tools.resultEvents == map[]
            && "q" in s'.tools.pending && s'.tools.pending["q"].call == LOST
  {
    var e := Orphaning(1);
    var none: seq<Public> := [];
    EmptySides(none);
    assert Preamble(c, s, e) == (s, none);
    var one := PushPart(c, s, e, 0);
    assert PushParts(c, s, e, 1) == Then([], one);
    var two := PushPart(c, one.0, e, 1);
    assert PushParts(c, s, e, 2) == Join(PushParts(c, s, e, 1), two);
  }

  lemma LostIsAnswered(c: Config, s: State)
    requires !c.explicitMessages && s.message.None? && s.tools.results == map[] && s.tools.resultEvents == map[]
    requires "q" in s.tools.pending && s.tools.pending["q"].call == LOST
    ensures Push(c, s, Orphaning(2)).1 == Ok([CallResult(LOST, "x")])
  {
    SinglePart(c, s, Orphaning(2));
    var none: seq<Public> := [];
    EmptySides(none);
    EmptySides([CallResult(LOST, "x")]);
  }

  predicate NeverStarts(out: seq<Public>) { forall p :: p in out && p.CallStart? ==> p.call != LOST }

  lemma FirstCallShown(c: Config)
    requires !c.explicitMessages
    ensures var (s, out) := Stream(c, [Orphaning(0)]);
            && s == Push(c, INITIAL, Orphaning(0)).0 && NeverStarts(out)
            && s.tools.results == map[] && s.tools.resultEvents == map[]
  {
    CallAccepted(c);
    SinglePart(c, INITIAL, Orphaning(0));
    StreamSnoc(c, [], Orphaning(0));
    assert [] + [Orphaning(0)] == [Orphaning(0)];
  }

  lemma SecondCallLost(c: Config)
    requires !c.explicitMessages
    ensures var (s, out) := Stream(c, [Orphaning(0), Orphaning(1)]);
            && s.message.None? && s.tools.results == map[] && s.tools.resultEvents == map[] && NeverStarts(out)
            && "q" in s.tools.pending && s.tools.pending["q"].call == LOST
  {
    CallAccepted(c);
    FirstCallShown(c);
    SecondCallRaises(c, Stream(c, [Orphaning(0)]).0);
    StreamSnoc(c, [Orphaning(0)], Orphaning(1));
    assert [Orphaning(0)] + [Orphaning(1)] == [Orphaning(0), Orphaning(1)];
  }

  // A concrete stream that shows a RESULT and never its START.
  lemma ResultWithoutStart(c: Config)
    requires !c.explicitMessages
    ensures var out := Stream(c, [Orphaning(0), Orphaning(1), Orphaning(2)]).1;
            CallResult(LOST, "x") in out && NeverStarts(out)
  {
    var before := [Orphaning(0), Orphaning(1)];
    SecondCallLost(c);
    LostIsAnswered(c, Stream(c, before).0);
    StreamSnoc(c, before, Orphaning(2));
    assert before + [Orphaning(2)] == [Orphaning(0), Orphaning(1), Orphaning(2)];
  }
}
