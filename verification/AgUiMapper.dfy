// harness/server/adk_mapper.py: the reduction of an ordered ADK event stream to public AG-UI events, on values.
module AgUiMapper {
  import opened Wrappers

  const MAX_PUBLIC_TEXT := 32_000

  // The digest of [tool, event id, part index, provider id], taken to be injective.
  datatype CallId = CallId(eventId: string, index: nat, rawId: string)

  datatype MessageId = MessageId(eventId: string, index: nat)

  // Names, arguments and contents are given in their public (redacted, canonical JSON) form.
  datatype ToolCall = ToolCall(rawId: string, name: string, arguments: string)

  datatype ToolResponse = ToolResponse(rawId: string, content: string)

  datatype Part = Part(thought: bool, text: string, call: Option<ToolCall>, response: Option<ToolResponse>)

  datatype AdkEvent = AdkEvent(
    id: string, author: string, fromUser: bool, partial: bool, failed: bool,
    publicDelta: string, publicMessage: bool, parts: seq<Part>, stateDelta: bool, output: bool)

  datatype Public =
    | TextStart(message: MessageId)
    | TextContent(message: MessageId, delta: string)
    | TextEnd(message: MessageId)
    | CallStart(call: CallId, name: string)
    | CallArgs(call: CallId, arguments: string)
    | CallEnd(call: CallId)
    | CallResult(call: CallId, content: string)
    | RunError
    | Other

  datatype Known = Known(rawId: string, name: string, arguments: string)

  datatype Pending = Pending(call: CallId, name: string, arguments: string)

  datatype SeenResult = SeenResult(rawId: string, call: CallId, content: string)

  datatype LastResult = LastResult(call: CallId, content: string)

  datatype Tools = Tools(
    pending: map<string, Pending>, calls: map<CallId, Known>, results: map<CallId, string>,
    resultEvents: map<(string, nat), SeenResult>, lastResults: map<string, LastResult>)

  datatype State = State(message: Option<MessageId>, author: string, text: string, tools: Tools)

  const INITIAL := State(None, "", "", Tools(map[], map[], map[], map[], map[]))

  datatype Config = Config(redact: string -> string, explicitMessages: bool)

  function Bounded(text: string): string {
    if |text| <= MAX_PUBLIC_TEXT then text else text[..MAX_PUBLIC_TEXT] + "…"
  }

  function LastChars(text: string): string {
    if |text| <= MAX_PUBLIC_TEXT then text else text[|text| - MAX_PUBLIC_TEXT..]
  }

  function Close(s: State): (State, seq<Public>) {
    if s.message.None? then (s, []) else (s.(message := None, author := "", text := ""), [TextEnd(s.message.value)])
  }

  // What of an aggregate text has not been shown yet.
  function Unshown(shown: string, partial: bool, delta: string): string {
    if partial || shown == "" then delta
    else if delta == shown then ""
    else if shown <= delta then delta[|shown|..]
    else delta
  }

  function Open(s: State, author: string, message: MessageId): (State, seq<Public>) {
    if s.message.Some? && s.author == author then (s, [])
    else (Close(s).0.(message := Some(message), author := author, text := ""), Close(s).1 + [TextStart(message)])
  }

  function PushText(c: Config, s: State, id: string, author: string, partial: bool, index: nat, text: string)
    : (State, seq<Public>)
  {
    var delta := Bounded(c.redact(text));
    if delta == "" then (s, [])
    else
      var (s1, opening) := Open(s, author, MessageId(id, index));
      var unseen := Unshown(s1.text, partial, delta);
      var s2 := if unseen == "" then s1 else s1.(text := LastChars(s1.text + unseen));
      var shown := if unseen == "" then [] else [TextContent(s2.message.value, unseen)];
      if partial then (s2, opening + shown) else (Close(s2).0, opening + shown + Close(s2).1)
  }

  function PushCall(t: Tools, id: string, index: nat, call: ToolCall): (Tools, Result<seq<Public>, ()>) {
    var callId := CallId(id, index, call.rawId);
    var known := Known(call.rawId, call.name, call.arguments);
    if callId in t.calls then (t, if t.calls[callId] == known then Ok([]) else Err(()))
    else if call.rawId in t.pending then
      var p := t.pending[call.rawId];
      if (p.name, p.arguments) != (call.name, call.arguments) then (t, Err(()))
      else (t.(calls := t.calls[callId := known]), Ok([]))
    else
      (t.(calls := t.calls[callId := known],
          pending := t.pending[call.rawId := Pending(callId, call.name, call.arguments)],
          lastResults := t.lastResults - {call.rawId}),
       Ok([CallStart(callId, call.name), CallArgs(callId, call.arguments), CallEnd(callId)]))
  }

  function PushResult(t: Tools, id: string, index: nat, response: ToolResponse): (Tools, Result<seq<Public>, ()>) {
    var raw, content := response.rawId, response.content;
    if (id, index) in t.resultEvents then
      var seen := t.resultEvents[(id, index)];
      (t, if (seen.rawId, seen.content) == (raw, content) then Ok([]) else Err(()))
    else if raw !in t.pending && raw in t.lastResults then
      var last := t.lastResults[raw];
      if last.content != content then (t, Err(()))
      else (t.(resultEvents := t.resultEvents[(id, index) := SeenResult(raw, last.call, content)]), Ok([]))
    else
      var call := if raw in t.pending then t.pending[raw].call else CallId(id, index, raw);
      var t1 := t.(pending := t.pending - {raw});
      if call in t.results then (t1, if t.results[call] == content then Ok([]) else Err(()))
      else
        (t1.(results := t.results[call := content],
             resultEvents := t.resultEvents[(id, index) := SeenResult(raw, call, content)],
             lastResults := t.lastResults[raw := LastResult(call, content)]),
         Ok([CallResult(call, content)]))
  }

  // A tool part: the open message is closed first, and stays closed even when the part is refused.
  function AfterClose(s: State, out: seq<Public>, next: (Tools, Result<seq<Public>, ()>))
    : (State, Result<seq<Public>, ()>)
  {
    (Close(s).0.(tools := next.0), if next.1.Ok? then Ok(out + Close(s).1 + next.1.value) else Err(()))
  }

  // `next` after `out`, stopping at the first error; the state keeps what was done before it.
  function Then(out: seq<Public>, next: (State, Result<seq<Public>, ()>)): (State, Result<seq<Public>, ()>) {
    (next.0, if next.1.Ok? then Ok(out + next.1.value) else Err(()))
  }

  function Author(c: Config, e: AdkEvent): string {
    if c.explicitMessages then "coding_reply" else e.author
  }

  function PartText(c: Config, s: State, e: AdkEvent, index: nat): (State, seq<Public>)
    requires index < |e.parts|
  {
    var text := e.parts[index].text;
    if text != "" && (!c.explicitMessages || e.publicMessage)
    then PushText(c, s, e.id, Author(c, e), e.partial, index, text) else (s, [])
  }

  function PartCall(s: State, out: seq<Public>, e: AdkEvent, index: nat): (State, Result<seq<Public>, ()>)
    requires index < |e.parts|
  {
    var call := e.parts[index].call;
    if call.None? then (s, Ok(out)) else AfterClose(s, out, PushCall(s.tools, e.id, index, call.value))
  }

  function PushPart(c: Config, s: State, e: AdkEvent, index: nat): (State, Result<seq<Public>, ()>)
    requires index < |e.parts|
  {
    var part := e.parts[index];
    if part.thought then (s, Ok([]))
    else
      var (s1, texts) := PartText(c, s, e, index);
      var (s2, r2) := PartCall(s1, texts, e, index);
      if r2.Err? || part.response.None? then (s2, r2)
      else AfterClose(s2, r2.value, PushResult(s2.tools, e.id, index, part.response.value))
  }

  function Join(mid: (State, Result<seq<Public>, ()>), next: (State, Result<seq<Public>, ()>))
    : (State, Result<seq<Public>, ()>)
  {
    if mid.1.Err? then mid else Then(mid.1.value, next)
  }

  function PushParts(c: Config, s: State, e: AdkEvent, count: nat): (State, Result<seq<Public>, ()>)
    requires count <= |e.parts|
  {
    if count == 0 then (s, Ok([]))
    else
      var mid := PushParts(c, s, e, count - 1);
      Join(mid, PushPart(c, mid.0, e, count - 1))
  }

  // Everything a push does before it looks at the parts: errors and the explicit public projection.
  function Preamble(c: Config, s: State, e: AdkEvent): (State, seq<Public>) {
    var (s1, out1) := if e.failed then (Close(s).0, Close(s).1 + [RunError]) else (s, []);
    var (s2, out2) :=
      if c.explicitMessages && e.publicDelta != ""
      then PushText(c, s1, e.id, "coding_reply", true, 0, e.publicDelta) else (s1, []);
    (s2, out1 + out2)
  }

  function Trailer(e: AdkEvent): seq<Public> {
    (if e.stateDelta then [Other] else []) + (if e.output then [Other] else [])
  }

  function Push(c: Config, s: State, e: AdkEvent): (State, Result<seq<Public>, ()>) {
    if e.fromUser then (s, Ok([]))
    else
      var (s1, out1) := Preamble(c, s, e);
      var (s2, r2) := PushParts(c, s1, e, |e.parts|);
      (s2, if r2.Ok? then Ok(out1 + r2.value + Trailer(e)) else Err(()))
  }

  // ---------------------------------------------------------------- redaction

  // Two texts that the redactor makes equal, and of which none is passed over for being empty alone.
  ghost predicate SameRedacted(c: Config, a: string, b: string) {
    c.redact(a) == c.redact(b) && (c.redact(a) == "" || (a == "" <==> b == ""))
  }

  // Two events alike except for texts with equal redactions.
  ghost predicate AlikeRedacted(c: Config, a: AdkEvent, b: AdkEvent) {
    && b == a.(publicDelta := b.publicDelta, parts := b.parts) && |a.parts| == |b.parts|
    && SameRedacted(c, a.publicDelta, b.publicDelta)
    && forall k :: 0 <= k < |a.parts| ==>
         b.parts[k] == a.parts[k].(text := b.parts[k].text) && SameRedacted(c, a.parts[k].text, b.parts[k].text)
  }

  lemma TextRedacted(c: Config, s: State, id: string, author: string, partial: bool, index: nat, a: string, b: string)
    requires c.redact(a) == c.redact(b)
    ensures PushText(c, s, id, author, partial, index, a) == PushText(c, s, id, author, partial, index, b)
    ensures c.redact(a) == "" ==> PushText(c, s, id, author, partial, index, a) == (s, [])
  {
  }

  lemma PartRedacted(c: Config, s: State, a: AdkEvent, b: AdkEvent, index: nat)
    requires AlikeRedacted(c, a, b) && index < |a.parts|
    ensures PushPart(c, s, a, index) == PushPart(c, s, b, index)
  {
    assert b.parts[index] == a.parts[index].(text := b.parts[index].text);
    assert SameRedacted(c, a.parts[index].text, b.parts[index].text);
    TextRedacted(c, s, a.id, Author(c, a), a.partial, index, a.parts[index].text, b.parts[index].text);
    assert PartText(c, s, a, index) == PartText(c, s, b, index);
  }

  lemma {:induction false} PartsRedacted(c: Config, s: State, a: AdkEvent, b: AdkEvent, count: nat)
    requires AlikeRedacted(c, a, b) && count <= |a.parts|
    ensures PushParts(c, s, a, count) == PushParts(c, s, b, count)
  {
    if count > 0 {
      PartsRedacted(c, s, a, b, count - 1);
      var mid := PushParts(c, s, a, count - 1);
      PartRedacted(c, mid.0, a, b, count - 1);
      assert PushParts(c, s, a, count) == Join(mid, PushPart(c, mid.0, a, count - 1));
      assert PushParts(c, s, b, count) == Join(mid, PushPart(c, mid.0, b, count - 1));
    }
  }

  // Whatever the redactor: what an event shows and what the normalizer keeps of it depend on its texts only through
  // their redactions.
  lemma RedactionDecides(c: Config, s: State, a: AdkEvent, b: AdkEvent)
    requires AlikeRedacted(c, a, b)
    ensures Push(c, s, a) == Push(c, s, b)
  {
    TextRedacted(c, if a.failed then Close(s).0 else s, a.id, "coding_reply", true, 0, a.publicDelta, b.publicDelta);
    assert Preamble(c, s, a) == Preamble(c, s, b);
    PartsRedacted(c, Preamble(c, s, a).0, a, b, |a.parts|);
    assert Trailer(a) == Trailer(b);
  }

  // ---------------------------------------------------------------- what a reader sees of one author's text

  // The texts of what is shown, in order.
  function Said(out: seq<Public>): string {
    if out == [] then ""
    else
      var last := out[|out| - 1];
      Said(out[..|out| - 1]) + (if last.TextContent? then last.delta else "")
  }

  // The public form of a text: redacted, and cut with an ellipsis after 32000 characters.
  function PublicForm(c: Config, text: string): string {
    var safe := c.redact(text);
    safe[..if |safe| > 32_000 then 32_000 else |safe|] + (if |safe| > 32_000 then "…" else "")
  }

  // From a state without an open message, one text part shows exactly its public form, in a message of its own.
  lemma TextShownExactly(
    c: Config, s: State, id: string, author: string, partial: bool, index: nat, text: string)
    requires s.message.None?
    ensures var out := PushText(c, s, id, author, partial, index, text).1;
            var (safe, message) := (PublicForm(c, text), MessageId(id, index));
            out == if safe == "" then []
                   else [TextStart(message), TextContent(message, safe)] + (if partial then [] else [TextEnd(message)])
  {
    assert PublicForm(c, text) == Bounded(c.redact(text));
  }

  // What is kept of a message's text: all of it, or its last 32000 characters.
  predicate Tail(text: string, kept: string) {
    if |text| <= 32_000 then kept == text else |kept| == 32_000 && kept == text[|text| - 32_000..]
  }

  // Whose message a text that shows something goes to: the open one, if it is the author's, or else a new one, after
  // the end of any other. A partial text leaves it open, any other ends it.
  lemma TextGoesTo(c: Config, s: State, id: string, author: string, partial: bool, index: nat, text: string)
    requires PublicForm(c, text) != ""
    ensures var (s', out) := PushText(c, s, id, author, partial, index, text);
            var same := s.message.Some? && s.author == author;
            var message := if same then s.message.value else MessageId(id, index);
            && out != [] && (same ==> forall p :: p in out ==> !p.TextStart?)
            && (!same && s.message.None? ==> out[0] == TextStart(message))
            && (!same && s.message.Some? ==> out[0] == TextEnd(s.message.value) && |out| > 1
                                             && out[1] == TextStart(message))
            && (!partial ==> s'.message.None? && out[|out| - 1] == TextEnd(message))
            && (partial ==> s'.message == Some(message) && s'.author == author && s'.tools == s.tools
                            && Tail((if same then s.text else "") + PublicForm(c, text), s'.text))
  {
    assert PublicForm(c, text) == Bounded(c.redact(text));
  }

  // A part that is text alone is shown under the event's author, or as the reply when messages are explicit and the
  // event is one; thoughts never are.
  lemma TextPartIs(c: Config, s: State, e: AdkEvent, index: nat)
    requires index < |e.parts| && e.parts[index].call.None? && e.parts[index].response.None?
    ensures var (part, author) := (e.parts[index], if c.explicitMessages then "coding_reply" else e.author);
            var (s', out) := PushText(c, s, e.id, author, e.partial, index, part.text);
            PushPart(c, s, e, index)
            == if part.thought || part.text == "" || (c.explicitMessages && !e.publicMessage) then (s, Ok([]))
               else (s', Ok(out))
  {
  }

  // An event without parts: an error ends the open message and is shown, a projected delta goes to the reply, and state
  // and output follow.
  lemma BareEventIs(c: Config, s: State, e: AdkEvent)
    requires |e.parts| == 0 && !e.fromUser
    ensures var (s', r) := Push(c, s, e);
            var closed := e.failed && s.message.Some?;
            var s1 := if closed then State(None, "", "", s.tools) else s;
            var (s2, shown) := PushText(c, s1, e.id, "coding_reply", true, 0, e.publicDelta);
            var told := c.explicitMessages && e.publicDelta != "";
            && s' == (if told then s2 else s1)
            && r == Ok((if closed then [TextEnd(s.message.value)] else []) + (if e.failed then [RunError] else [])
                       + (if told then shown else [])
                       + (if e.stateDelta then [Other] else []) + (if e.output then [Other] else []))
  {
    var none: seq<Public> := [];
    assert none + none == none && none + [RunError] == [RunError];
    var (s1, out1) := Preamble(c, s, e);
    EmptySides(out1);
    var told := c.explicitMessages && e.publicDelta != "";
    var first := (if e.failed && s.message.Some? then [TextEnd(s.message.value)] else [])
      + (if e.failed then [RunError] else []);
    EmptySides(first);
    assert Trailer(e) == (if e.stateDelta then [Other] else []) + (if e.output then [Other] else []);
    assert (out1 + none) + Trailer(e)
      == out1 + (if e.stateDelta then [Other] else []) + (if e.output then [Other] else []);
  }

  datatype Chunk = Chunk(id: string, index: nat, text: string)

  // Partial texts of one author, pushed in order.
  function PushChunks(c: Config, s: State, author: string, chunks: seq<Chunk>): (State, seq<Public>) {
    if chunks == [] then (s, [])
    else
      var last := chunks[|chunks| - 1];
      var (s1, out1) := PushChunks(c, s, author, chunks[..|chunks| - 1]);
      var (s2, out2) := PushText(c, s1, last.id, author, true, last.index, last.text);
      (s2, out1 + out2)
  }

  function Spelled(c: Config, chunks: seq<Chunk>): string {
    if chunks == [] then ""
    else Spelled(c, chunks[..|chunks| - 1]) + PublicForm(c, chunks[|chunks| - 1].text)
  }

  lemma {:induction false} SaidConcat(a: seq<Public>, b: seq<Public>)
    ensures Said(a + b) == Said(a) + Said(b)
  {
    if b == [] {
      assert a + b == a;
    } else {
      var n := |b| - 1;
      assert (a + b)[..|a| + n] == a + b[..n];
      SaidConcat(a, b[..n]);
    }
  }

  lemma SaidOne(p: Public)
    ensures Said([p]) == if p.TextContent? then p.delta else ""
  {
    assert [p][..0] == [];
  }

  lemma SaidTwo(a: Public, b: Public)
    ensures Said([a, b]) == (if a.TextContent? then a.delta else "") + (if b.TextContent? then b.delta else "")
  {
    SaidOne(a);
    SaidOne(b);
    SaidConcat([a], [b]);
    assert [a, b] == [a] + [b];
  }

  lemma LastCharsConcat(a: string, b: string)
    ensures LastChars(LastChars(a) + b) == LastChars(a + b)
  {
    if |a| > MAX_PUBLIC_TEXT {
      DropConcat(a, b, |a| - MAX_PUBLIC_TEXT);
      LastCharsDrop(a + b, |a| - MAX_PUBLIC_TEXT);
    }
  }

  lemma LastCharsDrop(text: string, k: nat)
    requires k + MAX_PUBLIC_TEXT <= |text|
    ensures LastChars(text[k..]) == LastChars(text)
  {
    DropTwice(text, k, |text| - k - MAX_PUBLIC_TEXT);
    DropNone(text[k..]);
    DropNone(text);
  }

  lemma DropNone(text: string)
    ensures text[0..] == text
  {
  }

  lemma DropConcat(a: string, b: string, k: nat)
    requires k <= |a|
    ensures a[k..] + b == (a + b)[k..]
  {
  }

  lemma DropTwice(text: string, k: nat, n: nat)
    requires k + n <= |text|
    ensures text[k..][n..] == text[k + n..]
  {
  }

  // What the state remembers of a message that shows `text`.
  ghost predicate Remembers(s: State, author: string, text: string) {
    if text == "" then s.message.None? else s.message.Some? && s.author == author && s.text == LastChars(text)
  }

  lemma FirstChunkShows(c: Config, s: State, author: string, chunk: Chunk)
    requires s.message.None?
    ensures var (s', out) := PushText(c, s, chunk.id, author, true, chunk.index, chunk.text);
            Remembers(s', author, PublicForm(c, chunk.text)) && Said(out) == PublicForm(c, chunk.text)
  {
    var delta, message := PublicForm(c, chunk.text), MessageId(chunk.id, chunk.index);
    TextShownExactly(c, s, chunk.id, author, true, chunk.index, chunk.text);
    SaidTwo(TextStart(message), TextContent(message, delta));
    assert delta == Bounded(c.redact(chunk.text)) && "" + delta == delta;
  }

  lemma NextChunkShows(c: Config, s: State, author: string, chunk: Chunk, text: string)
    requires text != "" && Remembers(s, author, text)
    ensures var (s', out) := PushText(c, s, chunk.id, author, true, chunk.index, chunk.text);
            Remembers(s', author, text + PublicForm(c, chunk.text)) && Said(out) == PublicForm(c, chunk.text)
  {
    var delta := PublicForm(c, chunk.text);
    assert delta == Bounded(c.redact(chunk.text));
    if delta == "" {
      EmptySides(text);
    } else {
      var content := TextContent(s.message.value, delta);
      var none: seq<Public> := [];
      EmptySides([content]);
      assert PushText(c, s, chunk.id, author, true, chunk.index, chunk.text)
             == (s.(text := LastChars(s.text + delta)), [content]);
      SaidOne(content);
      LastCharsConcat(text, delta);
    }
  }

  lemma ChunkShows(c: Config, s: State, author: string, chunk: Chunk, text: string)
    requires Remembers(s, author, text)
    ensures var (s', out) := PushText(c, s, chunk.id, author, true, chunk.index, chunk.text);
            Remembers(s', author, text + PublicForm(c, chunk.text)) && Said(out) == PublicForm(c, chunk.text)
  {
    if text == "" {
      FirstChunkShows(c, s, author, chunk);
      EmptySides(PublicForm(c, chunk.text));
    } else {
      NextChunkShows(c, s, author, chunk, text);
    }
  }

  lemma {:induction false} ChunksShow(c: Config, s: State, author: string, chunks: seq<Chunk>)
    requires s.message.None?
    ensures var (s', out) := PushChunks(c, s, author, chunks);
            Remembers(s', author, Spelled(c, chunks)) && Said(out) == Spelled(c, chunks)
  {
    if chunks != [] {
      var n := |chunks| - 1;
      ChunksShow(c, s, author, chunks[..n]);
      var (s1, out1) := PushChunks(c, s, author, chunks[..n]);
      ChunkShows(c, s1, author, chunks[n], Spelled(c, chunks[..n]));
      SaidConcat(out1, PushText(c, s1, chunks[n].id, author, true, chunks[n].index, chunks[n].text).1);
    }
  }

  // Partial texts and then their aggregate, whatever the redactor and the lengths: after the partial texts the reader
  // sees what of the aggregate follows the last 32000 characters of them, if it begins with those, and else all of it.
  // So texts up to that length are seen once exactly when they spell a beginning of the aggregate.
  lemma AggregateShownIff(c: Config, s: State, author: string, chunks: seq<Chunk>, last: Chunk, kept: string)
    requires s.message.None? && Spelled(c, chunks) != "" && PublicForm(c, last.text) != ""
    requires Tail(Spelled(c, chunks), kept)
    ensures var (s1, out1) := PushChunks(c, s, author, chunks);
            var (s2, out2) := PushText(c, s1, last.id, author, false, last.index, last.text);
            var (shown, whole) := (Spelled(c, chunks), PublicForm(c, last.text));
            && s2.message.None? && Said(out1 + out2) == shown + (if kept <= whole then whole[|kept|..] else whole)
            && (|shown| <= 32_000 && shown <= whole ==> Said(out1 + out2) == whole)
  {
    var (s1, out1) := PushChunks(c, s, author, chunks);
    ChunksShow(c, s, author, chunks);
    FinalShows(c, s1, author, last);
    SaidConcat(out1, PushText(c, s1, last.id, author, false, last.index, last.text).1);
  }

  lemma FinalShows(c: Config, s: State, author: string, last: Chunk)
    requires s.message.Some? && s.author == author && s.text != "" && PublicForm(c, last.text) != ""
    ensures var (s', out) := PushText(c, s, last.id, author, false, last.index, last.text);
            var whole := PublicForm(c, last.text);
            s'.message.None? && Said(out) == if s.text <= whole then whole[|s.text|..] else whole
  {
    var whole, message := PublicForm(c, last.text), s.message.value;
    var unseen := if s.text <= whole then whole[|s.text|..] else whole;
    FinalOut(c, s, author, last, unseen);
    SaidTwo(TextContent(message, unseen), TextEnd(message));
    SaidOne(TextEnd(message));
  }

  lemma FinalOut(c: Config, s: State, author: string, last: Chunk, unseen: string)
    requires s.message.Some? && s.author == author && s.text != "" && PublicForm(c, last.text) != ""
    requires unseen == var whole := PublicForm(c, last.text); if s.text <= whole then whole[|s.text|..] else whole
    ensures var (s', out) := PushText(c, s, last.id, author, false, last.index, last.text);
            && s'.message.None?
            && out == (if unseen == "" then [] else [TextContent(s.message.value, unseen)]) + [TextEnd(s.message.value)]
  {
    assert PublicForm(c, last.text) == Bounded(c.redact(last.text));
  }

  // ---------------------------------------------------------------- bracketing

  // Where a reader of the public stream stands: tool blocks are three consecutive events outside any message.
  datatype Mode = Closed | InMessage(message: MessageId) | Started(call: CallId) | Argued(call: CallId) | Broken

  function Next(m: Mode, p: Public): Mode {
    match (m, p)
    case (Closed, TextStart(id)) => InMessage(id)
    case (Closed, CallStart(id, _)) => Started(id)
    case (Closed, CallResult(_, _)) => Closed
    case (Closed, RunError) => Closed
    case (Closed, Other) => Closed
    case (InMessage(open), TextContent(id, _)) => if id == open then m else Broken
    case (InMessage(open), TextEnd(id)) => if id == open then Closed else Broken
    case (InMessage(_), Other) => m
    case (Started(call), CallArgs(id, _)) => if id == call then Argued(call) else Broken
    case (Argued(call), CallEnd(id)) => if id == call then Closed else Broken
    case _ => Broken
  }

  function Scan(m: Mode, out: seq<Public>): Mode {
    if out == [] then m else Next(Scan(m, out[..|out| - 1]), out[|out| - 1])
  }

  function ModeOf(s: State): Mode {
    if s.message.None? then Closed else InMessage(s.message.value)
  }

  lemma {:induction false} ScanConcat(m: Mode, a: seq<Public>, b: seq<Public>)
    ensures Scan(m, a + b) == Scan(Scan(m, a), b)
  {
    if b == [] {
      assert a + b == a;
    } else {
      var n := |b| - 1;
      assert (a + b)[..|a| + n] == a + b[..n];
      ScanConcat(m, a, b[..n]);
    }
  }

  lemma Scan1(m: Mode, p: Public)
    ensures Scan(m, [p]) == Next(m, p)
  {
    assert [p][..0] == [];
  }

  lemma CloseScans(s: State)
    ensures Scan(ModeOf(s), Close(s).1) == Closed == ModeOf(Close(s).0)
  {
    if s.message.Some? {
      Scan1(ModeOf(s), TextEnd(s.message.value));
    }
  }

  lemma OpenScans(s: State, author: string, message: MessageId)
    ensures var (s', out) := Open(s, author, message);
            s'.message.Some? && Scan(ModeOf(s), out) == ModeOf(s')
  {
    CloseScans(s);
    ScanConcat(ModeOf(s), Close(s).1, [TextStart(message)]);
    Scan1(Closed, TextStart(message));
  }

  lemma ScanThree(m: Mode, m1: Mode, m2: Mode, a: seq<Public>, b: seq<Public>, d: seq<Public>)
    requires Scan(m, a) == m1 && Scan(m1, b) == m2
    ensures Scan(m, a + b) == m2 && Scan(m, a + b + d) == Scan(m2, d)
  {
    ScanConcat(m, a, b);
    ScanConcat(m, a + b, d);
  }

  lemma TextScans(c: Config, s: State, id: string, author: string, partial: bool, index: nat, text: string)
    ensures var (s', out) := PushText(c, s, id, author, partial, index, text);
            Scan(ModeOf(s), out) == ModeOf(s')
  {
    var delta := Bounded(c.redact(text));
    if delta != "" {
      var start := Open(s, author, MessageId(id, index));
      OpenScans(s, author, MessageId(id, index));
      var s1 := start.0;
      var unseen := Unshown(s1.text, partial, delta);
      var s2 := if unseen == "" then s1 else s1.(text := LastChars(s1.text + unseen));
      var shown := if unseen == "" then [] else [TextContent(s2.message.value, unseen)];
      Scan1(ModeOf(s1), TextContent(s2.message.value, unseen));
      CloseScans(s2);
      ScanThree(ModeOf(s), ModeOf(s1), ModeOf(s2), start.1, shown, Close(s2).1);
    }
  }

  lemma CallScans(t: Tools, id: string, index: nat, call: ToolCall)
    ensures var r := PushCall(t, id, index, call).1; r.Ok? ==> Scan(Closed, r.value) == Closed
  {
    var callId := CallId(id, index, call.rawId);
    var a, b, d := CallStart(callId, call.name), CallArgs(callId, call.arguments), CallEnd(callId);
    Scan1(Closed, a);
    assert [a, b][..1] == [a] && [a, b, d][..2] == [a, b];
    assert Scan(Closed, [a, b]) == Argued(callId);
    assert Scan(Closed, [a, b, d]) == Closed;
  }

  lemma ResultScans(t: Tools, id: string, index: nat, response: ToolResponse)
    ensures var r := PushResult(t, id, index, response).1; r.Ok? ==> Scan(Closed, r.value) == Closed
  {
    var r := PushResult(t, id, index, response).1;
    if r.Ok? && r.value != [] {
      Scan1(Closed, r.value[0]);
    }
  }

  // An error can only come from a tool part, and leaves no message open.
  ghost predicate StaysBracketed(s: State, next: (State, Result<seq<Public>, ()>)) {
    match next.1
    case Ok(out) => Scan(ModeOf(s), out) == ModeOf(next.0)
    case Err(_) => next.0.message.None?
  }

  lemma ThenScans(s: State, mid: State, out: seq<Public>, next: (State, Result<seq<Public>, ()>))
    requires Scan(ModeOf(s), out) == ModeOf(mid) && StaysBracketed(mid, next)
    ensures StaysBracketed(s, Then(out, next))
  {
    if next.1.Ok? {
      ScanConcat(ModeOf(s), out, next.1.value);
    }
  }

  lemma AfterCloseScans(s: State, mid: State, out: seq<Public>, next: (Tools, Result<seq<Public>, ()>))
    requires Scan(ModeOf(s), out) == ModeOf(mid) && (next.1.Ok? ==> Scan(Closed, next.1.value) == Closed)
    ensures StaysBracketed(s, AfterClose(mid, out, next))
  {
    CloseScans(mid);
    ScanConcat(ModeOf(s), out, Close(mid).1);
    if next.1.Ok? {
      ScanConcat(ModeOf(s), out + Close(mid).1, next.1.value);
    }
  }

  lemma PartScans(c: Config, s: State, e: AdkEvent, index: nat)
    requires index < |e.parts|
    ensures StaysBracketed(s, PushPart(c, s, e, index))
  {
    var part := e.parts[index];
    if !part.thought {
      var (s1, texts) := PartText(c, s, e, index);
      PartTextScans(c, s, e, index);
      var (s2, r2) := PartCall(s1, texts, e, index);
      assert StaysBracketed(s, (s2, r2)) by {
        if part.call.Some? {
          CallScans(s1.tools, e.id, index, part.call.value);
          AfterCloseScans(s, s1, texts, PushCall(s1.tools, e.id, index, part.call.value));
        }
      }
      if r2.Ok? && part.response.Some? {
        ResultScans(s2.tools, e.id, index, part.response.value);
        AfterCloseScans(s, s2, r2.value, PushResult(s2.tools, e.id, index, part.response.value));
      }
    }
  }

  lemma PartTextScans(c: Config, s: State, e: AdkEvent, index: nat)
    requires index < |e.parts|
    ensures var (s', out) := PartText(c, s, e, index); Scan(ModeOf(s), out) == ModeOf(s')
  {
    TextScans(c, s, e.id, Author(c, e), e.partial, index, e.parts[index].text);
  }

  lemma JoinScans(s: State, mid: (State, Result<seq<Public>, ()>), next: (State, Result<seq<Public>, ()>))
    requires StaysBracketed(s, mid) && StaysBracketed(mid.0, next)
    ensures StaysBracketed(s, Join(mid, next))
  {
    if mid.1.Ok? {
      ThenScans(s, mid.0, mid.1.value, next);
    }
  }

  // Induction over the parts of an event: what holds before them and is kept by each holds after them.
  lemma {:induction false} EveryPart(
    c: Config, s: State, e: AdkEvent, count: nat, holds: (nat, (State, Result<seq<Public>, ()>)) -> bool)
    requires count <= |e.parts| && holds(0, (s, Ok([])))
    requires forall k: nat, mid :: k < |e.parts| && holds(k, mid) ==>
               holds(k + 1, Join(mid, PushPart(c, mid.0, e, k)))
    ensures holds(count, PushParts(c, s, e, count))
  {
    if count > 0 {
      EveryPart(c, s, e, count - 1, holds);
      assert holds(count - 1, PushParts(c, s, e, count - 1));
    }
  }

  lemma PartsScan(c: Config, s: State, e: AdkEvent, count: nat)
    requires count <= |e.parts|
    ensures StaysBracketed(s, PushParts(c, s, e, count))
  {
    var holds := (k: nat, next: (State, Result<seq<Public>, ()>)) => StaysBracketed(s, next);
    forall k: nat, mid | k < |e.parts| && holds(k, mid) ensures holds(k + 1, Join(mid, PushPart(c, mid.0, e, k))) {
      PartScans(c, mid.0, e, k);
      JoinScans(s, mid, PushPart(c, mid.0, e, k));
    }
    EveryPart(c, s, e, count, holds);
  }

  lemma PreambleScans(c: Config, s: State, e: AdkEvent)
    ensures var (s', out) := Preamble(c, s, e); Scan(ModeOf(s), out) == ModeOf(s')
  {
    var (s1, out1) := if e.failed then (Close(s).0, Close(s).1 + [RunError]) else (s, []);
    assert Scan(ModeOf(s), out1) == ModeOf(s1) by {
      CloseScans(s);
      ScanConcat(ModeOf(s), Close(s).1, [RunError]);
      Scan1(Closed, RunError);
    }
    TextScans(c, s1, e.id, "coding_reply", true, 0, e.publicDelta);
    var (s2, out2) :=
      if c.explicitMessages && e.publicDelta != ""
      then PushText(c, s1, e.id, "coding_reply", true, 0, e.publicDelta) else (s1, []);
    ScanConcat(ModeOf(s), out1, out2);
  }

  lemma OtherScans(m: Mode, shown: bool)
    requires Next(m, Other) == m
    ensures Scan(m, if shown then [Other] else []) == m
  {
    Scan1(m, Other);
  }

  lemma TrailerScans(s: State, e: AdkEvent)
    ensures Scan(ModeOf(s), Trailer(e)) == ModeOf(s)
  {
    OtherScans(ModeOf(s), e.stateDelta);
    OtherScans(ModeOf(s), e.output);
    ScanConcat(ModeOf(s), if e.stateDelta then [Other] else [], if e.output then [Other] else []);
  }

  lemma PushScans(c: Config, s: State, e: AdkEvent)
    ensures StaysBracketed(s, Push(c, s, e))
  {
    if !e.fromUser {
      var (s1, out1) := Preamble(c, s, e);
      PreambleScans(c, s, e);
      PartsScan(c, s1, e, |e.parts|);
      var (s2, r2) := PushParts(c, s1, e, |e.parts|);
      if r2.Ok? {
        TrailerScans(s2, e);
        ScanConcat(ModeOf(s), out1, r2.value);
        ScanConcat(ModeOf(s), out1 + r2.value, Trailer(e));
      }
    }
  }

  // ---------------------------------------------------------------- whole streams

  // The public stream so far; a rejected push publishes nothing but may leave its mark on the state.
  function Stream(c: Config, events: seq<AdkEvent>): (State, seq<Public>) {
    if events == [] then (INITIAL, [])
    else
      var (s, out) := Stream(c, events[..|events| - 1]);
      var (s', r) := Push(c, s, events[|events| - 1]);
      (s', out + (if r.Ok? then r.value else []))
  }

  lemma StreamSnoc(c: Config, events: seq<AdkEvent>, e: AdkEvent)
    ensures var (s, out) := Stream(c, events);
            var (s', r) := Push(c, s, e);
            Stream(c, events + [e]) == (s', out + (if r.Ok? then r.value else []))
  {
    assert (events + [e])[..|events|] == events;
  }

  ghost predicate Accepted(c: Config, events: seq<AdkEvent>) {
    forall k :: 0 <= k < |events| ==> Push(c, Stream(c, events[..k]).0, events[k]).1.Ok?
  }

  // Any accepted stream is well bracketed, tool blocks are whole and outside messages, and finish closes the rest.
  lemma {:induction false} StreamBracketed(c: Config, events: seq<AdkEvent>)
    requires Accepted(c, events)
    ensures var (s, out) := Stream(c, events);
            Scan(Closed, out) == ModeOf(s) && Scan(Closed, out + Close(s).1) == Closed
  {
    var (s, out) := Stream(c, events);
    if events != [] {
      var n := |events| - 1;
      AcceptedPrefix(c, events, n);
      StreamBracketed(c, events[..n]);
      var (s0, out0) := Stream(c, events[..n]);
      PushScans(c, s0, events[n]);
      ScanConcat(Closed, out0, Push(c, s0, events[n]).1.value);
    }
    ScanConcat(Closed, out, Close(s).1);
    CloseScans(s);
  }

  lemma AcceptedPrefix(c: Config, events: seq<AdkEvent>, n: nat)
    requires Accepted(c, events) && n <= |events|
    ensures Accepted(c, events[..n])
  {
    forall k | 0 <= k < n ensures Push(c, Stream(c, events[..n][..k]).0, events[..n][k]).1.Ok? {
      assert events[..n][..k] == events[..k];
    }
  }

  // A push that raises loses the END it had already produced: the stream a client holds stays in step with the
  // normalizer exactly when no text message was open before that push.
  lemma RejectedPushInStepIff(c: Config, s: State, e: AdkEvent)
    requires Push(c, s, e).1.Err?
    ensures ModeOf(Push(c, s, e).0) == ModeOf(s) <==> s.message.None?
  {
    PushScans(c, s, e);
  }

  // No rejected push met an open message.
  predicate NoEndLost(c: Config, events: seq<AdkEvent>) {
    events == []
    || (var n := |events| - 1;
        var s := Stream(c, events[..n]).0;
        NoEndLost(c, events[..n]) && (Push(c, s, events[n]).1.Err? ==> s.message.None?))
  }

  // The client still waits for an END the normalizer no longer owes, or has met an event out of place.
  predicate Lost(m: Mode, s: State) { m.Broken? || (m.InMessage? && s.message.None?) }

  lemma {:induction false} ScanBroken(out: seq<Public>)
    ensures Scan(Broken, out) == Broken
  {
    if out != [] {
      ScanBroken(out[..|out| - 1]);
    }
  }

  // Events meant for a closed stream never close a message.
  lemma {:induction false} ScanInside(message: MessageId, out: seq<Public>)
    requires Scan(Closed, out) != Broken
    ensures var m := Scan(InMessage(message), out);
            m == Broken || (m == InMessage(message) && Scan(Closed, out) == Closed)
  {
    if out != [] {
      ScanInside(message, out[..|out| - 1]);
    }
  }

  lemma LostStays(m: Mode, s: State, next: (State, Result<seq<Public>, ()>))
    requires Lost(m, s) && StaysBracketed(s, next)
    ensures Lost(if next.1.Ok? then Scan(m, next.1.value) else m, next.0)
  {
    if next.1.Ok? {
      if m.Broken? {
        ScanBroken(next.1.value);
      } else {
        ScanInside(m.message, next.1.value);
      }
    }
  }

  // Client and normalizer so far, when no END was lost and otherwise.
  predicate Stands(m: Mode, s: State, clean: bool) { if clean then m == ModeOf(s) else Lost(m, s) }

  lemma AfterPush(c: Config, m: Mode, s: State, e: AdkEvent, clean: bool)
    requires Stands(m, s, clean)
    ensures var (s', r) := Push(c, s, e);
            Stands(if r.Ok? then Scan(m, r.value) else m, s', clean && (r.Err? ==> s.message.None?))
  {
    PushScans(c, s, e);
    if !clean {
      LostStays(m, s, Push(c, s, e));
    }
  }

  lemma ScanPublished(m: Mode, out: seq<Public>, r: Result<seq<Public>, ()>)
    ensures Scan(m, out + (if r.Ok? then r.value else []))
            == if r.Ok? then Scan(Scan(m, out), r.value) else Scan(m, out)
  {
    if r.Ok? {
      ScanConcat(m, out, r.value);
    } else {
      EmptySides(out);
    }
  }

  lemma {:induction false} StreamStands(c: Config, events: seq<AdkEvent>)
    ensures var (s, out) := Stream(c, events); Stands(Scan(Closed, out), s, NoEndLost(c, events))
  {
    if events != [] {
      var n := |events| - 1;
      StreamStands(c, events[..n]);
      var (s, out) := Stream(c, events[..n]);
      AfterPush(c, Scan(Closed, out), s, events[n], NoEndLost(c, events[..n]));
      ScanPublished(Closed, out, Push(c, s, events[n]).1);
    }
  }

  // Any stream at all, rejected pushes included, is well bracketed and closed after finish exactly when no rejected
  // push met an open message.
  lemma StreamClosesIff(c: Config, events: seq<AdkEvent>)
    ensures var (s, out) := Stream(c, events);
            Scan(Closed, out + Close(s).1) == Closed <==> NoEndLost(c, events)
  {
    var (s, out) := Stream(c, events);
    StreamStands(c, events);
    ScanConcat(Closed, out, Close(s).1);
    if NoEndLost(c, events) {
      CloseScans(s);
    } else if Scan(Closed, out).Broken? {
      ScanBroken(Close(s).1);
    }
  }

  const SILENT: AdkEvent := AdkEvent("e", "agent", false, true, false, "", false, [], false, false)

  // A tool call, a partial text, and the call's provider id again with other arguments.
  function Clashing(k: nat): AdkEvent {
    if k == 0 then SILENT.(id := "1", parts := [Part(false, "", Some(ToolCall("r", "read", "{}")), None)])
    else if k == 1 then SILENT.(id := "2", parts := [Part(false, "a", None, None)])
    else SILENT.(id := "3", parts := [Part(false, "", Some(ToolCall("r", "read", "{1}")), None)])
  }

  lemma CallAccepted(c: Config)
    requires !c.explicitMessages
    ensures var (s, r) := Push(c, INITIAL, Clashing(0));
            r.Ok? && s.message.None? && s.tools.calls.Keys == {CallId("1", 0, "r")}
            && s.tools.pending == map["r" := Pending(CallId("1", 0, "r"), "read", "{}")]
  {
    SinglePart(c, INITIAL, Clashing(0));
  }

  lemma TextOpens(c: Config, s: State)
    requires c.redact("a") == "a" && !c.explicitMessages && s.message.None?
    ensures var (s', r) := Push(c, s, Clashing(1)); r.Ok? && s'.message.Some? && s'.tools == s.tools
  {
    SinglePart(c, s, Clashing(1));
  }

  lemma ClashRaises(c: Config, s: State)
    requires !c.explicitMessages && s.tools.calls.Keys == {CallId("1", 0, "r")}
    requires s.tools.pending == map["r" := Pending(CallId("1", 0, "r"), "read", "{}")]
    ensures Push(c, s, Clashing(2)).1.Err?
  {
    SinglePart(c, s, Clashing(2));
  }

  // A concrete stream that ends unclosed even after finish.
  lemma RejectedPushLosesEnd(c: Config)
    requires c.redact("a") == "a" && !c.explicitMessages
    ensures var (s, out) := Stream(c, [Clashing(0), Clashing(1), Clashing(2)]);
            Scan(Closed, out + Close(s).1) != Closed
  {
    var e1, e2, e3 := Clashing(0), Clashing(1), Clashing(2);
    CallAccepted(c);
    var s1 := Push(c, INITIAL, e1).0;
    TextOpens(c, s1);
    var s2 := Push(c, s1, e2).0;
    ClashRaises(c, s2);
    PushScans(c, s2, e3);
    BracketedTwice(c, e1, e2);
    assert [e1, e2, e3][..2] == [e1, e2];
    var out := Stream(c, [e1, e2]).1;
    EmptySides(out);
    var s3 := Push(c, s2, e3).0;
    assert Stream(c, [e1, e2, e3]) == (s3, out + []);
    assert Close(s3).1 == [];
  }

  lemma SinglePart(c: Config, s: State, e: AdkEvent)
    requires |e.parts| == 1 && !e.fromUser && !e.failed && e.publicDelta == "" && !e.stateDelta && !e.output
    ensures Push(c, s, e) == PushPart(c, s, e, 0)
  {
    assert PushParts(c, s, e, 1) == Then([], PushPart(c, s, e, 0));
    var r := PushPart(c, s, e, 0).1;
    var none: seq<Public> := [];
    EmptySides(none);
    assert Preamble(c, s, e) == (s, none) && Trailer(e) == none;
    if r.Ok? {
      EmptySides(r.value);
    }
  }

  lemma BracketedTwice(c: Config, a: AdkEvent, b: AdkEvent)
    requires Push(c, INITIAL, a).1.Ok? && Push(c, Push(c, INITIAL, a).0, b).1.Ok?
    ensures Stream(c, [a, b]).0 == Push(c, Push(c, INITIAL, a).0, b).0
    ensures Scan(Closed, Stream(c, [a, b]).1) == ModeOf(Stream(c, [a, b]).0)
  {
    var both := [a, b];
    assert both[..1] == [a] && both[..0] == [] && [a][..0] == [];
    forall k | 0 <= k < 2 ensures Push(c, Stream(c, both[..k]).0, both[k]).1.Ok? {
    }
    StreamBracketed(c, both);
  }
}
