// AdkAgUiNormalizer: the mapper's fields updated push by push, each method tied to AgUiMapper.
module AgUiNormalizer {
  import opened Wrappers
  import opened AgUiMapper

  class AdkAgUiNormalizer {
    const config: Config
    var activeMessage: Option<MessageId>
    var activeAuthor: string
    var activeText: string
    var pendingToolCalls: map<string, Pending>
    var toolCalls: map<CallId, Known>
    var toolResults: map<CallId, string>
    var toolResultEvents: map<(string, nat), SeenResult>
    var lastToolResults: map<string, LastResult>

    ghost function ToolsView(): Tools
      reads this
    {
      Tools(pendingToolCalls, toolCalls, toolResults, toolResultEvents, lastToolResults)
    }

    ghost function View(): State
      reads this
    {
      State(activeMessage, activeAuthor, activeText, ToolsView())
    }

    constructor (config: Config)
      ensures View() == INITIAL && this.config == config
    {
      this.config := config;
      activeMessage, activeAuthor, activeText := None, "", "";
      pendingToolCalls, toolCalls, toolResults, toolResultEvents, lastToolResults := map[], map[], map[], map[], map[];
    }

    method CloseMessage() returns (out: seq<Public>)
      modifies this`activeMessage, this`activeAuthor, this`activeText
      ensures (View(), out) == Close(old(View()))
    {
      if activeMessage.None? {
        return [];
      }
      out := [TextEnd(activeMessage.value)];
      activeMessage, activeAuthor, activeText := None, "", "";
    }

    method PushTextPart(id: string, author: string, partial: bool, index: nat, text: string) returns (out: seq<Public>)
      modifies this`activeMessage, this`activeAuthor, this`activeText
      ensures (View(), out) == PushText(config, old(View()), id, author, partial, index, text)
    {
      var delta := Bounded(config.redact(text));
      if delta == "" {
        return [];
      }
      out := [];
      if activeMessage.None? || activeAuthor != author {
        var closed := CloseMessage();
        activeMessage := Some(MessageId(id, index));
        activeAuthor := author;
        activeText := "";
        out := closed + [TextStart(activeMessage.value)];
      }
      if !partial && activeText != "" {
        if delta == activeText {
          delta := "";
        } else if activeText <= delta {
          delta := delta[|activeText|..];
        }
      }
      if delta != "" {
        out := out + [TextContent(activeMessage.value, delta)];
        activeText := LastChars(activeText + delta);
      } else {
        assert out + [] == out;
      }
      if !partial {
        var closed := CloseMessage();
        out := out + closed;
      }
    }

    method PushToolCall(id: string, index: nat, call: ToolCall) returns (r: Result<seq<Public>, ()>)
      modifies this`toolCalls, this`pendingToolCalls, this`lastToolResults
      ensures (ToolsView(), r) == PushCall(old(ToolsView()), id, index, call)
    {
      var callId := CallId(id, index, call.rawId);
      var known := Known(call.rawId, call.name, call.arguments);
      if callId in toolCalls {
        return if toolCalls[callId] != known then Err(()) else Ok([]);
      }
      if call.rawId in pendingToolCalls {
        var pending := pendingToolCalls[call.rawId];
        if pending.name != call.name || pending.arguments != call.arguments {
          return Err(());
        }
        toolCalls := toolCalls[callId := known];
        return Ok([]);
      }
      toolCalls := toolCalls[callId := known];
      pendingToolCalls := pendingToolCalls[call.rawId := Pending(callId, call.name, call.arguments)];
      lastToolResults := lastToolResults - {call.rawId};
      return Ok([CallStart(callId, call.name), CallArgs(callId, call.arguments), CallEnd(callId)]);
    }

    method PushToolResult(id: string, index: nat, response: ToolResponse) returns (r: Result<seq<Public>, ()>)
      modifies this`pendingToolCalls, this`toolResults, this`toolResultEvents, this`lastToolResults
      ensures (ToolsView(), r) == PushResult(old(ToolsView()), id, index, response)
    {
      var raw, content := response.rawId, response.content;
      if (id, index) in toolResultEvents {
        var seen := toolResultEvents[(id, index)];
        return if seen.rawId != raw || seen.content != content then Err(()) else Ok([]);
      }
      var callId;
      if raw in pendingToolCalls {
        callId := pendingToolCalls[raw].call;
        pendingToolCalls := pendingToolCalls - {raw};
      } else {
        if raw in lastToolResults {
          var last := lastToolResults[raw];
          if last.content != content {
            return Err(());
          }
          toolResultEvents := toolResultEvents[(id, index) := SeenResult(raw, last.call, content)];
          return Ok([]);
        }
        callId := CallId(id, index, raw);
        assert pendingToolCalls - {raw} == pendingToolCalls;
      }
      if callId in toolResults {
        return if toolResults[callId] != content then Err(()) else Ok([]);
      }
      toolResults := toolResults[callId := content];
      toolResultEvents := toolResultEvents[(id, index) := SeenResult(raw, callId, content)];
      lastToolResults := lastToolResults[raw := LastResult(callId, content)];
      return Ok([CallResult(callId, content)]);
    }

    // One pass of the loop over content.parts.
    method PushOnePart(e: AdkEvent, index: nat) returns (r: Result<seq<Public>, ()>)
      requires index < |e.parts|
      modifies this
      ensures (View(), r) == PushPart(config, old(View()), e, index)
    {
      var part := e.parts[index];
      if part.thought {
        return Ok([]);
      }
      var out: seq<Public> := [];
      if part.text != "" && (!config.explicitMessages || e.publicMessage) {
        out := PushTextPart(e.id, if config.explicitMessages then "coding_reply" else e.author,
                            e.partial, index, part.text);
      }
      ghost var s1 := View();
      ghost var texts := out;
      assert (s1, texts) == PartText(config, old(View()), e, index);
      if part.call.Some? {
        var called := AfterClosing(e, index, out, true);
        if called.Err? {
          return called;
        }
        out := called.value;
      }
      assert (View(), Ok(out)) == PartCall(s1, texts, e, index);
      if part.response.Some? {
        r := AfterClosing(e, index, out, false);
        return;
      }
      return Ok(out);
    }

    // Closing the open message, then the call or the response of a part.
    method AfterClosing(e: AdkEvent, index: nat, out: seq<Public>, call: bool) returns (r: Result<seq<Public>, ()>)
      requires index < |e.parts|
      requires if call then e.parts[index].call.Some? else e.parts[index].response.Some?
      modifies this
      ensures (View(), r)
              == AfterClose(old(View()), out,
                            if call then PushCall(old(ToolsView()), e.id, index, e.parts[index].call.value)
                            else PushResult(old(ToolsView()), e.id, index, e.parts[index].response.value))
    {
      var closed := CloseMessage();
      var more;
      if call {
        more := PushToolCall(e.id, index, e.parts[index].call.value);
      } else {
        more := PushToolResult(e.id, index, e.parts[index].response.value);
      }
      return if more.Err? then Err(()) else Ok(out + closed + more.value);
    }

    method PushEvent(e: AdkEvent) returns (r: Result<seq<Public>, ()>)
      modifies this
      ensures (View(), r) == Push(config, old(View()), e)
    {
      if e.fromUser {
        return Ok([]);
      }
      var out := PushPreamble(e);
      var parts := PushContent(e);
      if parts.Err? {
        return Err(());
      }
      out := out + parts.value;
      var trailer: seq<Public> := [];
      if e.stateDelta {
        trailer := trailer + [Other];
      }
      if e.output {
        trailer := trailer + [Other];
      }
      assert trailer == Trailer(e);
      return Ok(out + trailer);
    }

    method PushPreamble(e: AdkEvent) returns (out: seq<Public>)
      modifies this`activeMessage, this`activeAuthor, this`activeText
      ensures (View(), out) == Preamble(config, old(View()), e)
    {
      out := [];
      if e.failed {
        var closed := CloseMessage();
        out := closed + [RunError];
      }
      if config.explicitMessages && e.publicDelta != "" {
        var projected := PushTextPart(e.id, "coding_reply", true, 0, e.publicDelta);
        out := out + projected;
      } else {
        assert out + [] == out;
      }
    }

    method PushContent(e: AdkEvent) returns (r: Result<seq<Public>, ()>)
      modifies this
      ensures (View(), r) == PushParts(config, old(View()), e, |e.parts|)
    {
      var out: seq<Public> := [];
      var index := 0;
      while index < |e.parts|
        invariant index <= |e.parts|
        invariant PushParts(config, old(View()), e, index) == (View(), Ok(out))
      {
        var pushed := PushOnePart(e, index);
        if pushed.Err? {
          PartsStop(config, old(View()), e, index + 1);
          return Err(());
        }
        out := out + pushed.value;
        index := index + 1;
      }
      return Ok(out);
    }

    method Finish() returns (out: seq<Public>)
      modifies this
      ensures (View(), out) == Close(old(View()))
    {
      out := CloseMessage();
    }
  }

  // A part that raised ends the push: the state and the error are those of the prefix.
  lemma {:induction false} PartsStop(c: Config, s: State, e: AdkEvent, count: nat)
    requires count <= |e.parts| && PushParts(c, s, e, count).1.Err?
    ensures PushParts(c, s, e, |e.parts|) == PushParts(c, s, e, count)
    decreases |e.parts| - count
  {
    if count < |e.parts| {
      PartsStop(c, s, e, count + 1);
    }
  }
}
