// Model chunks to public messages, end to end: PublicReplyStream's deltas and the workflow's closing message event
// (app/agent/presentation.py) through the AG-UI mapper.
module ReplyPipeline {
  import opened Wrappers
  import opened Reply
  import M = AgUiMapper
  import R = ReplyStream

  function Concat(deltas: seq<string>): string {
    if deltas == [] then "" else Concat(deltas[..|deltas| - 1]) + deltas[|deltas| - 1]
  }

  // The delta each callback of a batch publishes.
  function Deltas(c: R.Config, s: R.State, calls: seq<R.Callback>): (d: seq<string>)
    ensures |d| == |calls|
  {
    if calls == [] then []
    else
      var n := |calls| - 1;
      var r := R.React(c, R.Batch(c, s, calls[..n]).0, calls[n]).1;
      Deltas(c, s, calls[..n]) + [if r.Ok? then r.value else ""]
  }

  // An event of a work batch: its raw text is private, only the projected delta is public.
  predicate IsPrivate(e: M.AdkEvent) { !e.fromUser && !e.failed && !e.publicMessage }

  predicate HasToolPart(e: M.AdkEvent) {
    exists i :: 0 <= i < |e.parts| && (e.parts[i].call.Some? || e.parts[i].response.Some?)
  }

  // A private event without tool parts.
  predicate CarriesDelta(e: M.AdkEvent, delta: string) { IsPrivate(e) && e.publicDelta == delta && !HasToolPart(e) }

  // The callbacks whose events hold tool calls and tool results.
  predicate UsesTools(call: R.Callback) { call.Tool? || (call.Model? && R.HasCall(call.response.parts)) }

  function PublicDeltas(events: seq<M.AdkEvent>): seq<string> {
    seq(|events|, i requires 0 <= i < |events| => events[i].publicDelta)
  }

  // The events a callback gives rise to: any number, projecting what it publishes; tool parts come from tools and from
  // responses that call them.
  ghost predicate Emits(call: R.Callback, delta: string, events: seq<M.AdkEvent>) {
    && Concat(PublicDeltas(events)) == delta
    && forall e :: e in events ==> IsPrivate(e) && (HasToolPart(e) ==> UsesTools(call))
  }

  function Flatten(groups: seq<seq<M.AdkEvent>>): seq<M.AdkEvent> {
    if groups == [] then [] else Flatten(groups[..|groups| - 1]) + groups[|groups| - 1]
  }

  // Pushing events in order from any state, up to the first that raises.
  function Pushes(c: M.Config, s: M.State, events: seq<M.AdkEvent>): (M.State, Result<seq<M.Public>, ()>) {
    if events == [] then (s, Ok([]))
    else
      var (s1, r1) := Pushes(c, s, events[..|events| - 1]);
      if r1.Err? then (s1, r1) else M.Then(r1.value, M.Push(c, s1, events[|events| - 1]))
  }

  // presentation.message_event
  predicate IsMessageEvent(e: M.AdkEvent, message: string) {
    && !e.fromUser && !e.failed && !e.partial && e.publicDelta == "" && e.publicMessage
    && e.parts == [M.Part(false, message, None, None)] && !e.stateDelta && !e.output
  }

  predicate IsText(p: M.Public) { p.TextStart? || p.TextContent? || p.TextEnd? }

  function Texts(out: seq<M.Public>): seq<M.Public> {
    if out == [] then []
    else Texts(out[..|out| - 1]) + (if IsText(out[|out| - 1]) then [out[|out| - 1]] else [])
  }

  // The text of consecutive content events of one message.
  function Contents(id: M.MessageId, deltas: seq<string>): seq<M.Public> {
    seq(|deltas|, i requires 0 <= i < |deltas| => M.TextContent(id, deltas[i]))
  }

  // Exactly one START, contents spelling the body once, exactly one END.
  ghost predicate ShownOnce(out: seq<M.Public>, body: string) {
    exists id, deltas :: Texts(out) == [M.TextStart(id)] + Contents(id, deltas) + [M.TextEnd(id)]
                         && Concat(deltas) == body
  }

  lemma {:induction false} TextsConcat(a: seq<M.Public>, b: seq<M.Public>)
    ensures Texts(a + b) == Texts(a) + Texts(b)
  {
    if b == [] {
      assert a + b == a;
    } else {
      var n := |b| - 1;
      assert (a + b)[..|a| + n] == a + b[..n];
      TextsConcat(a, b[..n]);
    }
  }

  lemma {:induction false} TextsAll(out: seq<M.Public>)
    requires forall p :: p in out ==> IsText(p)
    ensures Texts(out) == out
  {
    if out != [] {
      var n := |out| - 1;
      TextsAll(out[..n]);
      assert out[n] in out && out == out[..n] + [out[n]];
    }
  }

  ghost predicate Transparent(c: M.Config) {
    c.explicitMessages && forall t :: c.redact(t) == t
  }

  // The mapper after some deltas: nothing open and nothing shown, or one message holding exactly what was shown.
  ghost predicate Showing(s: M.State, out: seq<M.Public>, text: string) {
    if text == "" then s.message.None? && Texts(out) == []
    else
      && s.message.Some? && s.author == "coding_reply" && s.text == text
      && exists deltas :: Texts(out) == [M.TextStart(s.message.value)] + Contents(s.message.value, deltas)
                          && Concat(deltas) == text
  }

  lemma {:induction false} PrivateParts(c: M.Config, s: M.State, e: M.AdkEvent, delta: string, count: nat)
    requires Transparent(c) && CarriesDelta(e, delta) && count <= |e.parts|
    ensures M.PushParts(c, s, e, count) == (s, Ok([]))
  {
    if count > 0 {
      assert e.parts[count - 1].call.None? && e.parts[count - 1].response.None?;
      PrivateParts(c, s, e, delta, count - 1);
      var none: seq<M.Public> := [];
      assert none + none == none;
    }
  }

  lemma TrailerSilent(e: M.AdkEvent)
    ensures Texts(M.Trailer(e)) == []
  {
    assert M.Trailer(e) == [] || M.Trailer(e) == [M.Other] || M.Trailer(e) == [M.Other, M.Other];
    assert [M.Other][..0] == [] && [M.Other, M.Other][..1] == [M.Other];
  }

  lemma ContentsSnoc(id: M.MessageId, deltas: seq<string>, delta: string)
    ensures Contents(id, deltas + [delta]) == Contents(id, deltas) + [M.TextContent(id, delta)]
    ensures Concat(deltas + [delta]) == Concat(deltas) + delta
  {
    assert (deltas + [delta])[..|deltas|] == deltas;
  }

  lemma FirstDelta(c: M.Config, s: M.State, id: string, delta: string)
    requires Transparent(c) && s.message.None? && 0 < |delta| <= M.MAX_PUBLIC_TEXT
    ensures var m := M.MessageId(id, 0);
            M.PushText(c, s, id, "coding_reply", true, 0, delta)
            == (s.(message := Some(m), author := "coding_reply", text := delta),
                [M.TextStart(m), M.TextContent(m, delta)])
  {
    var m := M.MessageId(id, 0);
    var (s1, opening) := M.Open(s, "coding_reply", m);
    assert opening == [M.TextStart(m)];
    assert s1.text + delta == delta;
    assert opening + [M.TextContent(m, delta)] == [M.TextStart(m), M.TextContent(m, delta)];
  }

  lemma NextDelta(c: M.Config, s: M.State, id: string, delta: string)
    requires Transparent(c) && s.message.Some? && s.author == "coding_reply"
    requires delta != "" && |s.text + delta| <= M.MAX_PUBLIC_TEXT
    ensures M.PushText(c, s, id, "coding_reply", true, 0, delta)
            == (s.(text := s.text + delta), [M.TextContent(s.message.value, delta)])
  {
    var content := [M.TextContent(s.message.value, delta)];
    assert [] + content == content;
  }

  lemma OneContent(id: M.MessageId, delta: string)
    ensures Contents(id, [delta]) == [M.TextContent(id, delta)] && Concat([delta]) == delta
  {
    assert [delta][..0] == [];
  }

  lemma OneMessage(id: M.MessageId, delta: string)
    ensures [M.TextStart(id), M.TextContent(id, delta)] == [M.TextStart(id)] + Contents(id, [delta])
    ensures Concat([delta]) == delta
    ensures forall p :: p in [M.TextStart(id), M.TextContent(id, delta)] ==> IsText(p)
  {
    OneContent(id, delta);
  }

  lemma TextsAfter(out: seq<M.Public>, more: seq<M.Public>)
    requires forall p :: p in more ==> IsText(p)
    ensures Texts(out + more) == Texts(out) + more
    ensures Texts(out) == [] ==> Texts(out + more) == more
  {
    TextsConcat(out, more);
    TextsAll(more);
    EmptySides(more);
  }

  lemma ShowingWith(s: M.State, out: seq<M.Public>, text: string, deltas: seq<string>)
    requires text != "" && s.message.Some? && s.author == "coding_reply" && s.text == text && Concat(deltas) == text
    requires Texts(out) == [M.TextStart(s.message.value)] + Contents(s.message.value, deltas)
    ensures Showing(s, out, text)
  {
  }

  // The first delta of a batch, and every later one, keep exactly what was published on show.
  lemma FirstShown(s: M.State, out: seq<M.Public>, id: M.MessageId, delta: string)
    requires Texts(out) == [] && delta != "" && s.message == Some(id) && s.author == "coding_reply" && s.text == delta
    ensures Showing(s, out + [M.TextStart(id), M.TextContent(id, delta)], delta)
  {
    var more := [M.TextStart(id), M.TextContent(id, delta)];
    OneMessage(id, delta);
    TextsAfter(out, more);
    assert Texts(out + more) == [M.TextStart(id)] + Contents(id, [delta]);
    ShowingWith(s, out + more, delta, [delta]);
  }

  lemma NextShown(s: M.State, s': M.State, out: seq<M.Public>, text: string, delta: string)
    requires Showing(s, out, text) && text != "" && s'.message == s.message && s'.author == s.author
    requires s'.text == text + delta
    ensures Showing(s', out + [M.TextContent(s.message.value, delta)], text + delta)
  {
    var id := s.message.value;
    var more := [M.TextContent(id, delta)];
    TextsAfter(out, more);
    var deltas :| Texts(out) == [M.TextStart(id)] + Contents(id, deltas) && Concat(deltas) == text;
    ContentsSnoc(id, deltas, delta);
    assert [M.TextStart(id)] + Contents(id, deltas) + more == [M.TextStart(id)] + (Contents(id, deltas) + more);
    ShowingWith(s', out + more, text + delta, deltas + [delta]);
  }

  lemma ProjectionShows(c: M.Config, s: M.State, out: seq<M.Public>, e: M.AdkEvent, text: string, delta: string)
    requires Transparent(c) && Showing(s, out, text) && delta != ""
    requires |text + delta| <= M.MAX_PUBLIC_TEXT
    ensures var (s', more) := M.PushText(c, s, e.id, "coding_reply", true, 0, delta);
            Showing(s', out + more, text + delta)
  {
    var s' := M.PushText(c, s, e.id, "coding_reply", true, 0, delta).0;
    if text == "" {
      FirstDelta(c, s, e.id, delta);
      FirstShown(s', out, M.MessageId(e.id, 0), delta);
      assert text + delta == delta;
    } else {
      NextDelta(c, s, e.id, delta);
      NextShown(s, s', out, text, delta);
    }
  }

  lemma PushDelta(c: M.Config, s: M.State, e: M.AdkEvent, delta: string)
    requires Transparent(c) && CarriesDelta(e, delta)
    ensures M.Push(c, s, e)
            == if delta == "" then (s, Ok(M.Trailer(e)))
               else var (s', more) := M.PushText(c, s, e.id, "coding_reply", true, 0, delta);
                    (s', Ok(more + M.Trailer(e)))
  {
    var (s1, out1) := M.Preamble(c, s, e);
    PrivateParts(c, s1, e, delta, |e.parts|);
    assert out1 + [] + M.Trailer(e) == out1 + M.Trailer(e);
    var more := M.PushText(c, s, e.id, "coding_reply", true, 0, delta).1;
    assert [] + more == more && [] + M.Trailer(e) == M.Trailer(e);
  }

  lemma TrailerHidden(s: M.State, out: seq<M.Public>, more: seq<M.Public>, e: M.AdkEvent, text: string)
    requires Showing(s, out + more, text)
    ensures Showing(s, out + (more + M.Trailer(e)), text)
  {
    TrailerSilent(e);
    TextsConcat(out + more, M.Trailer(e));
    EmptySides(Texts(out + more));
    assert out + (more + M.Trailer(e)) == (out + more) + M.Trailer(e);
    ShowingSame(s, s, out + more, out + (more + M.Trailer(e)), text);
  }

  lemma DeltaShows(c: M.Config, s: M.State, out: seq<M.Public>, e: M.AdkEvent, text: string, delta: string)
    requires Transparent(c) && Showing(s, out, text) && CarriesDelta(e, delta)
    requires |text + delta| <= M.MAX_PUBLIC_TEXT
    ensures var next := M.Push(c, s, e);
            next.1.Ok? && Showing(next.0, out + next.1.value, text + delta)
  {
    PushDelta(c, s, e, delta);
    if delta == "" {
      EmptySides(text);
      EmptySides(out);
      EmptySides(M.Trailer(e));
      TrailerHidden(s, out, [], e, text);
    } else {
      var shown := M.PushText(c, s, e.id, "coding_reply", true, 0, delta);
      ProjectionShows(c, s, out, e, text, delta);
      TrailerHidden(shown.0, out, shown.1, e, text + delta);
    }
  }

  lemma ShowingSame(s: M.State, s': M.State, out: seq<M.Public>, out': seq<M.Public>, text: string)
    requires Showing(s, out, text) && s == s' && Texts(out') == Texts(out)
    ensures Showing(s', out', text)
  {
  }

  // ---------------------------------------------------------------- events with tool parts

  predicate NoText(out: seq<M.Public>) { forall p :: p in out ==> !IsText(p) }

  // Accepted without opening a message or showing text.
  predicate Hidden(next: (M.State, Result<seq<M.Public>, ()>)) {
    next.1.Ok? ==> next.0.message.None? && NoText(next.1.value)
  }

  lemma HiddenCall(s: M.State, e: M.AdkEvent, index: nat)
    requires s.message.None? && index < |e.parts|
    ensures Hidden(M.PartCall(s, [], e, index))
  {
  }

  lemma HiddenResponse(s: M.State, out: seq<M.Public>, id: string, index: nat, response: M.ToolResponse)
    requires s.message.None? && NoText(out)
    ensures Hidden(M.AfterClose(s, out, M.PushResult(s.tools, id, index, response)))
  {
  }

  lemma HiddenPart(c: M.Config, s: M.State, e: M.AdkEvent, index: nat)
    requires c.explicitMessages && IsPrivate(e) && s.message.None? && index < |e.parts|
    ensures Hidden(M.PushPart(c, s, e, index))
  {
    HiddenCall(s, e, index);
    var (s2, r2) := M.PartCall(s, [], e, index);
    if r2.Ok? && e.parts[index].response.Some? {
      HiddenResponse(s2, r2.value, e.id, index, e.parts[index].response.value);
    }
  }

  lemma HiddenParts(c: M.Config, s: M.State, e: M.AdkEvent, count: nat)
    requires c.explicitMessages && IsPrivate(e) && s.message.None? && count <= |e.parts|
    ensures Hidden(M.PushParts(c, s, e, count))
  {
    var holds := (k: nat, next: (M.State, Result<seq<M.Public>, ()>)) => Hidden(next);
    forall k: nat, mid | k < |e.parts| && holds(k, mid) ensures holds(k + 1, M.Join(mid, M.PushPart(c, mid.0, e, k))) {
      if mid.1.Ok? {
        HiddenPart(c, mid.0, e, k);
      }
    }
    M.EveryPart(c, s, e, count, holds);
  }

  lemma {:induction false} NoTexts(out: seq<M.Public>)
    requires NoText(out)
    ensures Texts(out) == []
  {
    if out != [] {
      var n := |out| - 1;
      SplitLast(out);
      NoTexts(out[..n]);
      assert out[n] in out;
    }
  }

  // While no message is open, an event that projects nothing opens none, whatever tool parts it has.
  lemma ToolPartsHidden(c: M.Config, s: M.State, out: seq<M.Public>, e: M.AdkEvent)
    requires c.explicitMessages && IsPrivate(e) && e.publicDelta == "" && Showing(s, out, "")
    requires M.Push(c, s, e).1.Ok?
    ensures var (s', r) := M.Push(c, s, e); Showing(s', out + r.value, "")
  {
    HiddenParts(c, s, e, |e.parts|);
    var r := M.Push(c, s, e).1;
    NoTexts(r.value);
    TextsConcat(out, r.value);
  }

  // ---------------------------------------------------------------- the deltas of a batch

  ghost predicate Silent(events: seq<M.AdkEvent>) { forall e :: e in events ==> e.publicDelta == "" }

  // Tool parts come before the first delta only.
  ghost predicate ToolsFirst(events: seq<M.AdkEvent>) {
    forall j :: 0 <= j < |events| && HasToolPart(events[j]) ==> Silent(events[..j + 1])
  }

  lemma {:induction false} ConcatSilent(events: seq<M.AdkEvent>)
    ensures Concat(PublicDeltas(events)) == "" <==> Silent(events)
  {
    if events != [] {
      var n := |events| - 1;
      SplitLast(events);
      assert PublicDeltas(events)[..n] == PublicDeltas(events[..n]);
      ConcatSilent(events[..n]);
      assert events[n] in events;
    }
  }

  lemma ToolsFirstPrefix(events: seq<M.AdkEvent>, n: nat)
    requires ToolsFirst(events) && n <= |events|
    ensures ToolsFirst(events[..n])
  {
    forall j | 0 <= j < n && HasToolPart(events[j]) ensures Silent(events[..n][..j + 1]) {
      assert events[..n][..j + 1] == events[..j + 1];
    }
  }

  lemma DeltaOrTool(
    c: M.Config, s: M.State, out: seq<M.Public>, e: M.AdkEvent, text: string)
    requires Transparent(c) && Showing(s, out, text) && IsPrivate(e) && M.Push(c, s, e).1.Ok?
    requires HasToolPart(e) ==> text == "" && e.publicDelta == ""
    requires |text + e.publicDelta| <= M.MAX_PUBLIC_TEXT
    ensures var (s', r) := M.Push(c, s, e); Showing(s', out + r.value, text + e.publicDelta)
  {
    if HasToolPart(e) {
      ToolPartsHidden(c, s, out, e);
      EmptySides(text);
    } else {
      DeltaShows(c, s, out, e, text, e.publicDelta);
    }
  }

  // Whatever tools a batch used before its first delta, from any state without an open message: its deltas open one
  // message that holds exactly their concatenation.
  lemma {:induction false} DeltasShow(c: M.Config, s: M.State, events: seq<M.AdkEvent>)
    requires Transparent(c) && s.message.None? && (forall e :: e in events ==> IsPrivate(e)) && ToolsFirst(events)
    requires Pushes(c, s, events).1.Ok? && |Concat(PublicDeltas(events))| <= M.MAX_PUBLIC_TEXT
    ensures var (s', r) := Pushes(c, s, events); Showing(s', r.value, Concat(PublicDeltas(events)))
  {
    if events != [] {
      var n := |events| - 1;
      var (s1, r1) := Pushes(c, s, events[..n]);
      assert PublicDeltas(events)[..n] == PublicDeltas(events[..n]);
      assert events[n] in events;
      ToolsFirstPrefix(events, n);
      DeltasShow(c, s, events[..n]);
      if HasToolPart(events[n]) {
        assert events[..n + 1] == events;
        ConcatSilent(events[..n]);
      }
      DeltaOrTool(c, s1, r1.value, events[n], Concat(PublicDeltas(events[..n])));
    }
  }

  lemma {:induction false} ConcatParts(a: seq<string>, b: seq<string>)
    ensures Concat(a + b) == Concat(a) + Concat(b)
  {
    if b == [] {
      EmptySides(a);
      EmptySides(Concat(a));
    } else {
      var n := |b| - 1;
      assert (a + b)[..|a| + n] == a + b[..n];
      ConcatParts(a, b[..n]);
    }
  }

  // What the events of a batch are like.
  ghost predicate Batched(events: seq<M.AdkEvent>, shown: string) {
    (forall e :: e in events ==> IsPrivate(e)) && ToolsFirst(events) && Concat(PublicDeltas(events)) == shown
  }

  lemma BatchedMore(before: seq<M.AdkEvent>, more: seq<M.AdkEvent>, shown: string, call: R.Callback, delta: string)
    requires Batched(before, shown) && Emits(call, delta, more)
    requires UsesTools(call) ==> shown == "" && delta == ""
    ensures Batched(before + more, shown + delta)
  {
    assert PublicDeltas(before + more) == PublicDeltas(before) + PublicDeltas(more);
    ConcatParts(PublicDeltas(before), PublicDeltas(more));
    ConcatSilent(before);
    ConcatSilent(more);
    var all := before + more;
    forall j | 0 <= j < |all| && HasToolPart(all[j]) ensures Silent(all[..j + 1]) {
      if j < |before| {
        assert all[..j + 1] == before[..j + 1];
      } else {
        assert all[j] in more;
        assert forall e :: e in all[..j + 1] ==> e in before || e in more;
      }
    }
  }

  // The guard orders the events: once a delta is out, no callback that uses tools gets through.
  lemma {:induction false} BatchOrdered(
    c: R.Config, s: R.State, calls: seq<R.Callback>, groups: seq<seq<M.AdkEvent>>)
    requires R.Sound(c, s) && !s.started && R.Batch(c, s, calls).1.Ok? && |groups| == |calls|
    requires forall i :: 0 <= i < |calls| ==> Emits(calls[i], Deltas(c, s, calls)[i], groups[i])
    ensures Batched(Flatten(groups), R.Batch(c, s, calls).1.value)
  {
    if calls != [] {
      var n := |calls| - 1;
      assert Deltas(c, s, calls)[..n] == Deltas(c, s, calls[..n]);
      BatchOrdered(c, s, calls[..n], groups[..n]);
      R.BatchKeeps(c, s, calls[..n]);
      R.ReactKeeps(c, R.Batch(c, s, calls[..n]).0, calls[n]);
      BatchedMore(Flatten(groups[..n]), groups[n], R.Batch(c, s, calls[..n]).1.value, calls[n],
                  Deltas(c, s, calls)[n]);
    }
  }

  // What the closing message publishes: everything if nothing was streamed, else only the END.
  lemma ClosingText(c: M.Config, s: M.State, id: string, text: string, body: string)
    requires Transparent(c) && (text == "" || text == body) && 0 < |body| <= M.MAX_PUBLIC_TEXT
    requires if text == "" then s.message.None?
             else s.message.Some? && s.author == "coding_reply" && s.text == text
    ensures var (s', more) := M.PushText(c, s, id, "coding_reply", false, 0, body);
            && s'.message.None?
            && more == if text == "" then
                         [M.TextStart(M.MessageId(id, 0)), M.TextContent(M.MessageId(id, 0), body),
                          M.TextEnd(M.MessageId(id, 0))]
                       else [M.TextEnd(s.message.value)]
  {
  }

  lemma WholeShown(out: seq<M.Public>, id: M.MessageId, body: string)
    requires Texts(out) == []
    ensures ShownOnce(out + [M.TextStart(id), M.TextContent(id, body), M.TextEnd(id)], body)
  {
    var more := [M.TextStart(id), M.TextContent(id, body), M.TextEnd(id)];
    TextsAfter(out, more);
    OneMessage(id, body);
    assert more == [M.TextStart(id), M.TextContent(id, body)] + [M.TextEnd(id)];
  }

  lemma EndShown(s: M.State, out: seq<M.Public>, text: string)
    requires Showing(s, out, text) && text != ""
    ensures ShownOnce(out + [M.TextEnd(s.message.value)], text)
  {
    var id := s.message.value;
    var more := [M.TextEnd(id)];
    TextsAfter(out, more);
    var deltas :| Texts(out) == [M.TextStart(id)] + Contents(id, deltas) && Concat(deltas) == text;
    assert Texts(out + more) == [M.TextStart(id)] + Contents(id, deltas) + [M.TextEnd(id)];
  }

  // The closing message adds what has not been streamed, which is all of it or nothing, and ends the message.
  lemma MessageCloses(c: M.Config, s: M.State, out: seq<M.Public>, e: M.AdkEvent, text: string, body: string)
    requires Transparent(c) && Showing(s, out, text) && IsMessageEvent(e, body)
    requires text == "" || text == body
    requires 0 < |body| <= M.MAX_PUBLIC_TEXT
    ensures var (s', r) := M.Push(c, s, e); r.Ok? && s'.message.None? && ShownOnce(out + r.value, body)
  {
    M.SinglePart(c, s, e);
    ClosingText(c, s, e.id, text, body);
    if text == "" {
      WholeShown(out, M.MessageId(e.id, 0), body);
    } else {
      EndShown(s, out, text);
    }
  }

  // For any chunking and any tools used before it: when the batch ends with a final aggregate, nothing raised, finish
  // accepted the step and the mapper accepted the events, then from any state without an open message the public stream
  // of the batch and its closing message shows the returned body exactly once.
  lemma ReplyShownExactlyOnce(
    rc: R.Config, s: R.State, calls: seq<R.Callback>, step: AgentStep,
    mc: M.Config, m: M.State, groups: seq<seq<M.AdkEvent>>, closing: M.AdkEvent)
    requires R.Sound(rc, s) && !s.started && calls != [] && R.IsFinalText(calls[|calls| - 1])
    requires R.Batch(rc, s, calls).1.Ok? && R.Finish(rc, R.Batch(rc, s, calls).0, step).Ok?
    requires Transparent(mc) && m.message.None? && |groups| == |calls|
    requires forall i :: 0 <= i < |calls| ==> Emits(calls[i], Deltas(rc, s, calls)[i], groups[i])
    requires Pushes(mc, m, Flatten(groups)).1.Ok?
    requires var body := R.Finish(rc, R.Batch(rc, s, calls).0, step).value.message;
             IsMessageEvent(closing, body) && 0 < |body| <= M.MAX_PUBLIC_TEXT
    ensures var body := R.Finish(rc, R.Batch(rc, s, calls).0, step).value.message;
            var (m', r) := Pushes(mc, m, Flatten(groups) + [closing]);
            r.Ok? && m'.message.None? && ShownOnce(r.value, body)
  {
    var body := R.Finish(rc, R.Batch(rc, s, calls).0, step).value.message;
    R.StreamedReplyIsExact(rc, s, calls, step);
    BatchOrdered(rc, s, calls, groups);
    BatchCloses(mc, m, Flatten(groups), closing, R.Batch(rc, s, calls).1.value, body);
  }

  lemma BatchCloses(
    c: M.Config, m: M.State, events: seq<M.AdkEvent>, closing: M.AdkEvent, shown: string, body: string)
    requires Transparent(c) && m.message.None? && Batched(events, shown) && Pushes(c, m, events).1.Ok?
    requires shown in {"", body} && IsMessageEvent(closing, body) && 0 < |body| <= M.MAX_PUBLIC_TEXT
    ensures var (m', r) := Pushes(c, m, events + [closing]);
            r.Ok? && m'.message.None? && ShownOnce(r.value, body)
  {
    DeltasShow(c, m, events);
    var (m1, r1) := Pushes(c, m, events);
    MessageCloses(c, m1, r1.value, closing, shown, body);
    assert (events + [closing])[..|events|] == events;
  }

  lemma Regroup(a: seq<M.Public>, b: seq<M.Public>, d: seq<M.Public>)
    ensures a + (b + d) == (a + b) + d
  {
  }

  // The mapper's stream over a whole history is its stream before the batch, then these pushes.
  lemma {:induction false} PushesContinueStream(
    c: M.Config, before: seq<M.AdkEvent>, events: seq<M.AdkEvent>, whole: seq<M.AdkEvent>)
    requires whole == before + events && Pushes(c, M.Stream(c, before).0, events).1.Ok?
    ensures var (s, r) := Pushes(c, M.Stream(c, before).0, events);
            M.Stream(c, whole) == (s, M.Stream(c, before).1 + r.value)
  {
    if events == [] {
      EmptySides(before);
      EmptySides(M.Stream(c, before).1);
    } else {
      var n := |events| - 1;
      var mid := before + events[..n];
      PushesContinueStream(c, before, events[..n], mid);
      assert whole == mid + [events[n]];
      M.StreamSnoc(c, mid, events[n]);
      var (s1, r1) := Pushes(c, M.Stream(c, before).0, events[..n]);
      Regroup(M.Stream(c, before).1, r1.value, M.Push(c, s1, events[n]).1.value);
    }
  }
}
