// app/agent/streaming.py: PublicReplyStream, the gate between raw model chunks and public text.
module ReplyStream {
  import opened Wrappers
  import opened Reply

  datatype Part = Part(text: string, thought: bool, call: bool)

  datatype Response = Response(parts: seq<Part>, partial: bool)

  // `prefix` is the publishable part of an unfinished message, any text at all; `blank` is "only white space".
  datatype Config = Config(
    parser: HeaderParser, redact: string -> string, prefix: string -> string, blank: string -> bool)

  datatype State = State(
    prepared: bool, started: bool, raw: string, shown: string, allowed: Option<bool>, disabled: bool)

  const INITIAL := State(false, false, "", "", None, false)

  function HasCall(parts: seq<Part>): bool { exists i :: 0 <= i < |parts| && parts[i].call }

  function SpokenText(parts: seq<Part>): string {
    if parts == [] then ""
    else SpokenText(parts[..|parts| - 1])
         + (if parts[|parts| - 1].thought then "" else parts[|parts| - 1].text)
  }

  lemma SpokenSnoc(parts: seq<Part>, part: Part)
    ensures SpokenText(parts + [part]) == SpokenText(parts) + (if part.thought then "" else part.text)
  {
    assert (parts + [part])[..|parts|] == parts;
  }

  // What a response says does not depend on how it is split: the texts of its parts that are no thoughts, in order.
  lemma {:induction false} PartsSay(a: seq<Part>, b: seq<Part>)
    ensures SpokenText(a + b) == SpokenText(a) + SpokenText(b)
  {
    if b == [] {
      EmptySides(a);
      EmptySides(SpokenText(a));
    } else {
      var n := |b| - 1;
      var said := if b[n].thought then "" else b[n].text;
      PartsSay(a, b[..n]);
      SpokenSnoc(a + b[..n], b[n]);
      assert a + b == (a + b[..n]) + [b[n]];
      assert SpokenText(b) == SpokenText(b[..n]) + said;
      Associative(SpokenText(a), SpokenText(b[..n]), said);
    }
  }

  lemma Associative(a: string, b: string, c: string)
    ensures (a + b) + c == a + (b + c)
  {
  }

  lemma PartSays(part: Part)
    ensures SpokenText([part]) == (if part.thought then "" else part.text) && HasCall([part]) == part.call
  {
    assert [part][..0] == [] && [part][0] == part;
  }

  lemma PartsCall(a: seq<Part>, b: seq<Part>)
    ensures HasCall(a + b) <==> HasCall(a) || HasCall(b)
  {
    assert forall i :: 0 <= i < |a| ==> (a + b)[i] == a[i];
    assert forall i :: 0 <= i < |b| ==> (a + b)[|a| + i] == b[i];
  }

  function Reset(s: State): State { s.(raw := "", shown := "", allowed := None, disabled := false) }

  function Prepare(s: State): State { Reset(s.(prepared := true, started := false)) }

  // guard_tool, then what the caller does when it does not raise.
  function Guarded(s: State, next: State): (State, Result<string, ()>) {
    if s.started then (s, Err(())) else (next, Ok(""))
  }

  function Public(c: Config, message: string, partial: bool): string {
    if partial then c.prefix(message) else c.redact(message)
  }

  // The recognized step of the response so far: consult the gate once, then publish the new suffix.
  function Publish(c: Config, s: State, step: AgentStep, partial: bool, allow: bool): (State, Result<string, ()>) {
    var s1 := if s.allowed.None? && !c.blank(step.message) then s.(allowed := Some(allow)) else s;
    if s1.allowed != Some(true) then (s1, Ok(""))
    else
      var text := Public(c, step.message, partial);
      if !(s1.shown <= text) then (s1, Err(()))
      else if text == s1.shown then (s1, Ok(""))
      else (s1.(started := true, shown := text), Ok(text[|s1.shown|..]))
  }

  // A nonempty text of a response still in play.
  function AfterText(c: Config, s: State, text: string, partial: bool, allow: bool): (State, Result<string, ()>) {
    var raw := if partial then s.raw + text else text;
    if !partial && s.started && !(s.raw <= raw) then (s, Err(()))
    else if |raw| > MAX_HEADER_CHARS + MAX_REPLY_CHARS + 1 then Guarded(s, s.(disabled := true))
    else
      var s1 := s.(raw := raw);
      match ParseReply(c.parser, raw)
      case Malformed => Guarded(s1, s1.(disabled := true))
      case NotAReply => (s1, Ok(""))
      case Reply(step) => Publish(c, s1, step, partial, allow)
  }

  // after_model: the published delta, or an exception.
  function AfterModel(c: Config, s: State, r: Response, allow: bool): (State, Result<string, ()>) {
    var text := SpokenText(r.parts);
    if HasCall(r.parts) then Guarded(s, s.(disabled := true))
    else if s.disabled || !s.prepared || text == "" then (s, Ok(""))
    else AfterText(c, s, text, r.partial, allow)
  }

  // finish: the step the workflow goes on with.
  function Finish(c: Config, s: State, step: AgentStep): Result<AgentStep, ()> {
    if !s.started then Ok(step)
    else if ParseReply(c.parser, s.raw) != Reply(step) then Err(())
    else Ok(step.(message := c.redact(step.message)))
  }

  // The callbacks of one work batch; `allow` is what the workflow's gate would answer at that moment.
  datatype Callback = Tool | BeforeModel | Model(response: Response, allow: bool)

  function React(c: Config, s: State, call: Callback): (State, Result<string, ()>) {
    match call
    case Tool => Guarded(s, s)
    case BeforeModel => Guarded(s, Reset(s))
    case Model(r, allow) => AfterModel(c, s, r, allow)
  }

  // A batch up to its first exception: the final state and the concatenated published deltas.
  function Batch(c: Config, s: State, calls: seq<Callback>): (State, Result<string, ()>) {
    if calls == [] then (s, Ok(""))
    else
      var (s1, r1) := Batch(c, s, calls[..|calls| - 1]);
      if r1.Err? then (s1, r1)
      else
        var (s2, r2) := React(c, s1, calls[|calls| - 1]);
        (s2, if r2.Ok? then Ok(r1.value + r2.value) else Err(()))
  }

  // ---------------------------------------------------------------- what holds between callbacks

  ghost predicate Sound(c: Config, s: State) {
    && (s.started ==> s.prepared && !s.disabled && s.allowed == Some(true) && s.shown != ""
                      && ParseReply(c.parser, s.raw).Reply?)
    && (!s.started ==> s.shown == "")
  }

  // One callback keeps the state sound, publishes exactly the growth of the shown text, and raises on everything
  // but plain model text once a delta is out.
  lemma ReactKeeps(c: Config, s: State, call: Callback)
    requires Sound(c, s) && React(c, s, call).1.Ok?
    ensures var (s', r) := React(c, s, call);
            && Sound(c, s') && s'.prepared == s.prepared
            && (if call.BeforeModel? then !s.started && s'.shown == "" && r.value == ""
                else s'.shown == s.shown + r.value)
            && (s.started ==> call.Model? && !HasCall(call.response.parts) && s'.started)
  {
    if call.Model? {
      ModelKeeps(c, s, call.response, call.allow);
    }
  }

  lemma PublishKeeps(c: Config, s: State, step: AgentStep, partial: bool, allow: bool)
    requires Publish(c, s, step, partial, allow).1.Ok?
    ensures var (s', r) := Publish(c, s, step, partial, allow);
            && s'.shown == s.shown + r.value && s'.raw == s.raw && s'.prepared == s.prepared
            && s'.disabled == s.disabled && (s'.started <==> s.started || r.value != "")
            && (r.value != "" || s.allowed == Some(true) ==> s'.allowed == Some(true))
            && (s.allowed == Some(true) ==> s'.shown == Public(c, step.message, partial))
            && (r.value != "" ==> s'.shown == Public(c, step.message, partial))
  {
  }

  lemma ModelKeeps(c: Config, s: State, response: Response, allow: bool)
    requires Sound(c, s) && AfterModel(c, s, response, allow).1.Ok?
    ensures var (s', r) := AfterModel(c, s, response, allow);
            && Sound(c, s') && s'.prepared == s.prepared && s'.shown == s.shown + r.value
            && (s.started ==> !HasCall(response.parts) && s'.started)
  {
    var text := SpokenText(response.parts);
    if !HasCall(response.parts) && !(s.disabled || !s.prepared || text == "") {
      var raw := if response.partial then s.raw + text else text;
      if s.started && s.raw <= raw {
        HeaderIsStable(c.parser, s.raw, raw);
      }
      var parsed := ParseReply(c.parser, raw);
      if parsed.Reply? && |raw| <= MAX_HEADER_CHARS + MAX_REPLY_CHARS + 1 {
        PublishKeeps(c, s.(raw := raw), parsed.step, response.partial, allow);
      }
    }
  }

  // The published text is what has been shown; after the first delta only call-free model responses get through.
  lemma {:induction false} BatchKeeps(c: Config, s: State, calls: seq<Callback>)
    requires Sound(c, s) && !s.started && Batch(c, s, calls).1.Ok?
    ensures var (s', r) := Batch(c, s, calls);
            Sound(c, s') && s'.shown == r.value && s'.prepared == s.prepared
            && (s'.started <==> r.value != "")
  {
    if calls != [] {
      BatchKeeps(c, s, calls[..|calls| - 1]);
      ReactKeeps(c, Batch(c, s, calls[..|calls| - 1]).0, calls[|calls| - 1]);
    }
  }

  lemma {:induction false} BatchPrefix(c: Config, s: State, calls: seq<Callback>, k: nat)
    requires Sound(c, s) && !s.started && Batch(c, s, calls).1.Ok? && k <= |calls|
    ensures Batch(c, s, calls[..k]).1.Ok?
    ensures Batch(c, s, calls[..k]).1.value != "" ==> Batch(c, s, calls).1.value != ""
    decreases |calls|
  {
    if k == |calls| {
      assert calls[..k] == calls;
    } else {
      var n := |calls| - 1;
      BatchPrefix(c, s, calls[..n], k);
      assert calls[..n][..k] == calls[..k];
      BatchKeeps(c, s, calls[..n]);
      LastOfBatch(c, s, calls);
    }
  }

  lemma StaysStarted(c: Config, s: State, calls: seq<Callback>, before: seq<Callback>)
    requires Sound(c, s) && !s.started && before <= calls && Batch(c, s, calls).1.Ok?
    requires Batch(c, s, before).1.Ok? && Batch(c, s, before).1.value != ""
    ensures Batch(c, s, calls).0.started
  {
    assert calls[..|before|] == before;
    BatchPrefix(c, s, calls, |before|);
    BatchKeeps(c, s, calls);
  }

  // After the first delta no tool call, model call or call-bearing response gets through.
  lemma NothingPassesTheGuard(c: Config, s: State, calls: seq<Callback>, k: nat, j: nat)
    requires Sound(c, s) && !s.started && Batch(c, s, calls).1.Ok? && k <= j < |calls|
    requires Batch(c, s, calls[..k]).1.Ok? && Batch(c, s, calls[..k]).1.value != ""
    ensures calls[j].Model? && !HasCall(calls[j].response.parts)
  {
    var upTo := calls[..j + 1];
    BatchPrefix(c, s, calls, j + 1);
    BatchPrefix(c, s, calls, j);
    assert upTo[..j] == calls[..j] && upTo[j] == calls[j];
    StaysStarted(c, s, calls[..j], calls[..k]);
    LastOfBatch(c, s, upTo);
  }

  lemma LastOfBatch(c: Config, s: State, calls: seq<Callback>)
    requires Sound(c, s) && !s.started && calls != [] && Batch(c, s, calls).1.Ok?
    ensures var (s1, r1) := Batch(c, s, calls[..|calls| - 1]);
            s1.started ==> r1.value != "" && Batch(c, s, calls).1.value != ""
                           && calls[|calls| - 1].Model? && !HasCall(calls[|calls| - 1].response.parts)
  {
    BatchKeeps(c, s, calls[..|calls| - 1]);
    ReactKeeps(c, Batch(c, s, calls[..|calls| - 1]).0, calls[|calls| - 1]);
  }

  // The final aggregate of a response: nonempty text, no call.
  predicate IsFinalText(call: Callback) {
    call.Model? && !call.response.partial && !HasCall(call.response.parts) && SpokenText(call.response.parts) != ""
  }

  // Exactly once: whatever the chunking, if a batch ends with a final aggregate and nothing raised, the deltas
  // spell the redacted body that finish returns, and finish accepts no other step; and if nothing was published,
  // finish returns the step untouched.
  lemma StreamedReplyIsExact(c: Config, s: State, calls: seq<Callback>, step: AgentStep)
    requires Sound(c, s) && !s.started && calls != [] && IsFinalText(calls[|calls| - 1])
    requires Batch(c, s, calls).1.Ok?
    ensures var (s', r) := Batch(c, s, calls);
            var text := SpokenText(calls[|calls| - 1].response.parts);
            if r.value == "" then Finish(c, s', step) == Ok(step)
            else
              && ParseReply(c.parser, text).Reply?
              && (Finish(c, s', step).Ok? <==> ParseReply(c.parser, text) == Reply(step))
              && (Finish(c, s', step).Ok? ==> Finish(c, s', step).value == step.(message := r.value))
              && r.value == c.redact(ParseReply(c.parser, text).step.message)
  {
    var n := |calls| - 1;
    BatchKeeps(c, s, calls);
    BatchKeeps(c, s, calls[..n]);
    if Batch(c, s, calls).0.started {
      FinalShowsAll(c, Batch(c, s, calls[..n]).0, calls[n]);
    }
  }

  lemma FinalShowsAll(c: Config, s: State, call: Callback)
    requires Sound(c, s) && IsFinalText(call) && React(c, s, call).1.Ok? && React(c, s, call).0.started
    ensures var s' := React(c, s, call).0;
            && s'.raw == SpokenText(call.response.parts)
            && ParseReply(c.parser, s'.raw).Reply?
            && s'.shown == c.redact(ParseReply(c.parser, s'.raw).step.message)
  {
    var raw := SpokenText(call.response.parts);
    if s.started {
      HeaderIsStable(c.parser, s.raw, raw);
    }
    var parsed := ParseReply(c.parser, raw);
    if parsed.Reply? && |raw| <= MAX_HEADER_CHARS + MAX_REPLY_CHARS + 1 && s.prepared && !s.disabled {
      PublishKeeps(c, s.(raw := raw), parsed.step, false, call.allow);
    }
  }

  // ---------------------------------------------------------------- what the gate lets through, said of the callbacks

  // No reset from the k-th callback on.
  predicate Since(calls: seq<Callback>, k: nat) { forall j :: k <= j < |calls| ==> !calls[j].BeforeModel? }

  predicate Speaks(call: Callback) {
    call.Model? && !HasCall(call.response.parts) && SpokenText(call.response.parts) != ""
  }

  // The text of the response so far: chunks add up, a final aggregate replaces them, a reset forgets.
  function Heard(calls: seq<Callback>): string {
    if calls == [] then ""
    else
      var n := |calls| - 1;
      if calls[n].BeforeModel? then ""
      else if !Speaks(calls[n]) then Heard(calls[..n])
      else (if calls[n].response.partial then Heard(calls[..n]) else "") + SpokenText(calls[n].response.parts)
  }

  predicate TooLong(c: Config, text: string) {
    |text| > MAX_HEADER_CHARS + MAX_REPLY_CHARS + 1 || ParseReply(c.parser, text).Malformed?
  }

  // This callback takes the response out of play: it carries a call, or a text that is too long.
  predicate Spoils(c: Config, calls: seq<Callback>, k: nat)
    requires k < |calls|
  {
    var text := Heard(calls[..k + 1]);
    calls[k].Model? && (HasCall(calls[k].response.parts) || (Speaks(calls[k]) && TooLong(c, text)))
  }

  // Some callback since the last reset did.
  ghost predicate Spoilt(c: Config, calls: seq<Callback>) {
    exists k: nat :: k < |calls| && Since(calls, k) && Spoils(c, calls, k)
  }

  // The callback is a chunk with which the response, not spoilt before, reads as a reply.
  ghost predicate Recognised(c: Config, calls: seq<Callback>, k: nat)
    requires k < |calls|
  {
    Speaks(calls[k]) && !Spoilt(c, calls[..k + 1]) && ParseReply(c.parser, Heard(calls[..k + 1])).Reply?
  }

  ghost function Message(c: Config, calls: seq<Callback>, k: nat): string
    requires k < |calls| && Recognised(c, calls, k)
  {
    ParseReply(c.parser, Heard(calls[..k + 1])).step.message
  }

  // The callback whose gate answer counts: the first since the last reset whose reply says something.
  ghost predicate Asks(c: Config, calls: seq<Callback>, k: nat) {
    k < |calls| && Since(calls, k) && Recognised(c, calls, k) && !c.blank(Message(c, calls, k))
  }

  ghost predicate FirstAsk(c: Config, calls: seq<Callback>, k: nat) {
    Asks(c, calls, k) && forall j: nat :: j < k ==> !Asks(c, calls, j)
  }

  ghost predicate Answered(c: Config, calls: seq<Callback>, allow: bool) {
    exists k: nat :: FirstAsk(c, calls, k) && calls[k].allow == allow
  }

  // The latest recognised callback since the last reset.
  ghost predicate Latest(c: Config, calls: seq<Callback>, k: nat) {
    && k < |calls| && Since(calls, k) && Recognised(c, calls, k)
    && forall j: nat :: k < j < |calls| ==> !Recognised(c, calls, j)
  }

  ghost predicate Shows(c: Config, calls: seq<Callback>, k: nat, shown: string) {
    Latest(c, calls, k)
    && shown == if calls[k].response.partial then c.prefix(Message(c, calls, k)) else c.redact(Message(c, calls, k))
  }

  // What the gate lets through: nothing while it has not allowed it, and then the public form of the latest recognised
  // message.
  ghost predicate LetThrough(c: Config, calls: seq<Callback>, shown: string) {
    if Answered(c, calls, true) then exists k: nat :: Shows(c, calls, k, shown) else shown == ""
  }

  // The state that a batch of these callbacks leaves.
  ghost predicate Reflects(c: Config, calls: seq<Callback>, s: State) {
    && s.prepared && (s.disabled <==> Spoilt(c, calls)) && (!s.disabled ==> s.raw == Heard(calls))
    && (forall allow :: s.allowed == Some(allow) <==> Answered(c, calls, allow))
    && LetThrough(c, calls, s.shown)
  }

  // What one more callback that is no reset leaves as it was.
  lemma EarlierStay(c: Config, calls: seq<Callback>, call: Callback, k: nat)
    requires k < |calls| && !call.BeforeModel?
    ensures var calls' := calls + [call];
            && calls'[..k + 1] == calls[..k + 1] && (Since(calls', k) <==> Since(calls, k))
            && (Spoils(c, calls', k) <==> Spoils(c, calls, k))
            && (Recognised(c, calls', k) <==> Recognised(c, calls, k))
            && (Recognised(c, calls, k) ==> Message(c, calls', k) == Message(c, calls, k))
            && (Asks(c, calls', k) <==> Asks(c, calls, k))
  {
    var calls' := calls + [call];
    assert calls'[..k + 1] == calls[..k + 1];
    assert calls'[|calls|] == call;
    if Since(calls, k) {
      forall j | k <= j < |calls'| ensures !calls'[j].BeforeModel? {
        assert j < |calls| ==> calls'[j] == calls[j];
      }
    }
    if Since(calls', k) {
      forall j | k <= j < |calls| ensures !calls[j].BeforeModel? {
        assert calls'[j] == calls[j];
      }
    }
  }

  // Where some callback asks, one is the first, and the gate has answered it.
  lemma {:induction false} SomeFirst(c: Config, calls: seq<Callback>, k: nat)
    requires Asks(c, calls, k)
    ensures Answered(c, calls, true) || Answered(c, calls, false)
  {
    if j: nat :| j < k && Asks(c, calls, j) {
      SomeFirst(c, calls, j);
    } else {
      assert FirstAsk(c, calls, k) && calls[k].allow in {true, false};
    }
  }

  lemma ResetForgets(c: Config, calls: seq<Callback>, call: Callback)
    requires call.BeforeModel?
    ensures var calls' := calls + [call];
            && Heard(calls') == "" && !Spoilt(c, calls') && (forall allow :: !Answered(c, calls', allow))
  {
    var calls' := calls + [call];
    assert calls'[|calls|] == call;
    assert forall k: nat :: k < |calls'| ==> !Since(calls', k);
  }

  lemma HeardSnoc(calls: seq<Callback>, call: Callback)
    requires !call.BeforeModel?
    ensures Heard(calls + [call])
            == if !Speaks(call) then Heard(calls)
               else (if call.response.partial then Heard(calls) else "") + SpokenText(call.response.parts)
  {
    assert (calls + [call])[..|calls|] == calls;
  }

  lemma SpoiltSnoc(c: Config, calls: seq<Callback>, call: Callback)
    requires !call.BeforeModel?
    ensures Spoilt(c, calls + [call]) <==> Spoilt(c, calls) || Spoils(c, calls + [call], |calls|)
  {
    var calls' := calls + [call];
    forall k: nat | k < |calls|
      ensures (Since(calls', k) <==> Since(calls, k)) && (Spoils(c, calls', k) <==> Spoils(c, calls, k))
    {
      EarlierStay(c, calls, call, k);
    }
    assert Since(calls', |calls|);
  }

  lemma AskSnoc(c: Config, calls: seq<Callback>, call: Callback, k: nat)
    requires !call.BeforeModel?
    ensures var n := |calls|;
            FirstAsk(c, calls + [call], k)
            <==> if k == n then Asks(c, calls + [call], n) && forall j: nat :: !Asks(c, calls, j)
                 else FirstAsk(c, calls, k)
  {
    var calls' := calls + [call];
    forall j: nat | j < |calls| ensures Asks(c, calls', j) <==> Asks(c, calls, j) {
      EarlierStay(c, calls, call, j);
    }
  }

  lemma AnsweredSnoc(c: Config, calls: seq<Callback>, call: Callback, allow: bool)
    requires !call.BeforeModel?
    ensures Answered(c, calls + [call], allow)
            <==> || Answered(c, calls, allow)
                 || (!Answered(c, calls, true) && !Answered(c, calls, false) && Asks(c, calls + [call], |calls|)
                     && call.allow == allow)
  {
    var calls', n := calls + [call], |calls|;
    forall k: nat
      ensures FirstAsk(c, calls', k)
              <==> if k == n then Asks(c, calls', n) && forall j: nat :: !Asks(c, calls, j) else FirstAsk(c, calls, k)
    {
      AskSnoc(c, calls, call, k);
    }
    if j: nat :| Asks(c, calls, j) {
      SomeFirst(c, calls, j);
    }
    forall k: nat | FirstAsk(c, calls, k) ensures calls'[k] == calls[k] {
    }
    if k: nat :| FirstAsk(c, calls, k) && calls[k].allow == allow {
      assert FirstAsk(c, calls', k);
    }
    if Answered(c, calls', allow) {
      var k: nat :| FirstAsk(c, calls', k) && calls'[k].allow == allow;
      assert k != n ==> FirstAsk(c, calls, k);
    }
  }

  lemma ShowsSnoc(c: Config, calls: seq<Callback>, call: Callback, k: nat, shown: string)
    requires !call.BeforeModel? && !Recognised(c, calls + [call], |calls|) && Shows(c, calls, k, shown)
    ensures Shows(c, calls + [call], k, shown)
  {
    var calls' := calls + [call];
    forall j: nat | j < |calls| ensures Recognised(c, calls', j) <==> Recognised(c, calls, j) {
      EarlierStay(c, calls, call, j);
    }
    EarlierStay(c, calls, call, k);
  }

  // A callback that is no reset and no recognised chunk.
  lemma SilentStep(c: Config, calls: seq<Callback>, call: Callback, s: State, s': State)
    requires Reflects(c, calls, s) && !call.BeforeModel? && !Recognised(c, calls + [call], |calls|)
    requires s'.prepared && s'.allowed == s.allowed && s'.shown == s.shown
    requires s'.disabled <==> s.disabled || Spoils(c, calls + [call], |calls|)
    requires !s'.disabled ==> s'.raw == Heard(calls + [call])
    ensures Reflects(c, calls + [call], s')
  {
    var calls' := calls + [call];
    SpoiltSnoc(c, calls, call);
    forall allow ensures Answered(c, calls', allow) <==> Answered(c, calls, allow) {
      AnsweredSnoc(c, calls, call, allow);
    }
    if Answered(c, calls, true) {
      var k: nat :| Shows(c, calls, k, s.shown);
      ShowsSnoc(c, calls, call, k, s.shown);
    }
  }

  // A recognised chunk: the gate is asked unless it has answered, and what it allows is shown.
  lemma RecognisedStep(c: Config, calls: seq<Callback>, call: Callback, s: State, s': State)
    requires Reflects(c, calls, s) && !call.BeforeModel? && Recognised(c, calls + [call], |calls|)
    requires s'.prepared && !s'.disabled && s'.raw == Heard(calls + [call])
    requires var message := Message(c, calls + [call], |calls|);
             && s'.allowed == (if s.allowed.None? && !c.blank(message) then Some(call.allow) else s.allowed)
             && s'.shown == if s'.allowed == Some(true) then Public(c, message, call.response.partial) else s.shown
    ensures Reflects(c, calls + [call], s')
  {
    var calls', n := calls + [call], |calls|;
    assert calls'[..n + 1] == calls';
    forall allow ensures s'.allowed == Some(allow) <==> Answered(c, calls', allow) {
      RecognisedAnswers(c, calls, call, s.allowed, s'.allowed, allow);
    }
    if s'.allowed == Some(true) {
      LatestShows(c, calls', n, s'.shown);
    }
  }

  lemma LatestShows(c: Config, calls: seq<Callback>, n: nat, shown: string)
    requires |calls| == n + 1 && !calls[n].BeforeModel? && Recognised(c, calls, n)
    requires shown == Public(c, Message(c, calls, n), calls[n].response.partial)
    ensures Shows(c, calls, n, shown)
  {
    assert Since(calls, n) && Latest(c, calls, n);
  }

  lemma RecognisedAnswers(
    c: Config, calls: seq<Callback>, call: Callback, before: Option<bool>, after: Option<bool>, allow: bool)
    requires !call.BeforeModel? && Recognised(c, calls + [call], |calls|)
    requires forall b :: before == Some(b) <==> Answered(c, calls, b)
    requires after == if before.None? && !c.blank(Message(c, calls + [call], |calls|)) then Some(call.allow) else before
    ensures after == Some(allow) <==> Answered(c, calls + [call], allow)
  {
    var calls', n := calls + [call], |calls|;
    AnsweredSnoc(c, calls, call, allow);
    assert Since(calls', n);
    assert Asks(c, calls', n) <==> !c.blank(Message(c, calls', n));
    assert before == Some(true) <==> Answered(c, calls, true);
    assert before == Some(false) <==> Answered(c, calls, false);
    match before {
      case None =>
      case Some(b) => assert if b then before == Some(true) else before == Some(false);
    }
  }

  lemma PublishedState(c: Config, s: State, step: AgentStep, partial: bool, allow: bool)
    requires Publish(c, s, step, partial, allow).1.Ok?
    ensures var s' := Publish(c, s, step, partial, allow).0;
            && s'.prepared == s.prepared && s'.disabled == s.disabled && s'.raw == s.raw
            && s'.allowed == (if s.allowed.None? && !c.blank(step.message) then Some(allow) else s.allowed)
            && s'.shown == if s'.allowed == Some(true) then Public(c, step.message, partial) else s.shown
  {
  }

  // What a chunk does to the state of a response that was not spoilt.
  lemma SpokenState(c: Config, s: State, call: Callback, text: string)
    requires Speaks(call) && s.prepared && !s.disabled && React(c, s, call).1.Ok?
    requires text == (if call.response.partial then s.raw else "") + SpokenText(call.response.parts)
    ensures var s', parsed := React(c, s, call).0, ParseReply(c.parser, text);
            && s'.prepared && (s'.disabled <==> TooLong(c, text)) && (!s'.disabled ==> s'.raw == text)
            && if TooLong(c, text) || !parsed.Reply? then s'.allowed == s.allowed && s'.shown == s.shown
               else
                 && s'.allowed
                    == (if s.allowed.None? && !c.blank(parsed.step.message) then Some(call.allow) else s.allowed)
                 && s'.shown == if s'.allowed == Some(true)
                                then Public(c, parsed.step.message, call.response.partial) else s.shown
  {
    SpokenIs(c, s, call, text);
    var parsed := ParseReply(c.parser, text);
    if |text| <= MAX_HEADER_CHARS + MAX_REPLY_CHARS + 1 && parsed.Reply? {
      PublishedState(c, s.(raw := text), parsed.step, call.response.partial, call.allow);
    }
  }

  lemma SpokenIs(c: Config, s: State, call: Callback, text: string)
    requires Speaks(call) && s.prepared && !s.disabled && React(c, s, call).1.Ok?
    requires text == (if call.response.partial then s.raw else "") + SpokenText(call.response.parts)
    ensures React(c, s, call)
            == if |text| > MAX_HEADER_CHARS + MAX_REPLY_CHARS + 1 then (s.(disabled := true), Ok(""))
               else match ParseReply(c.parser, text)
                 case Malformed => (s.(raw := text, disabled := true), Ok(""))
                 case NotAReply => (s.(raw := text), Ok(""))
                 case Reply(step) => Publish(c, s.(raw := text), step, call.response.partial, call.allow)
  {
    EmptySides(SpokenText(call.response.parts));
    assert React(c, s, call)
           == AfterText(c, s, SpokenText(call.response.parts), call.response.partial, call.allow);
  }

  lemma RecognisedIff(c: Config, calls: seq<Callback>, call: Callback)
    requires Speaks(call) && !Spoilt(c, calls)
    ensures var calls', n := calls + [call], |calls|;
            && (Spoils(c, calls', n) <==> TooLong(c, Heard(calls')))
            && (Recognised(c, calls', n) <==> !TooLong(c, Heard(calls')) && ParseReply(c.parser, Heard(calls')).Reply?)
            && (Recognised(c, calls', n) ==> Message(c, calls', n) == ParseReply(c.parser, Heard(calls')).step.message)
  {
    SpoiltSnoc(c, calls, call);
    assert (calls + [call])[..|calls| + 1] == calls + [call] && (calls + [call])[|calls|] == call;
  }

  // A text that the response, not spoilt so far, now holds.
  lemma TextReflects(c: Config, calls: seq<Callback>, call: Callback, s: State, s': State)
    requires Reflects(c, calls, s) && Speaks(call) && React(c, s, call).1.Ok? && !s.disabled
    requires s' == React(c, s, call).0
    ensures Reflects(c, calls + [call], s')
  {
    HeardSnoc(calls, call);
    RecognisedIff(c, calls, call);
    SpokenState(c, s, call, Heard(calls + [call]));
    if Recognised(c, calls + [call], |calls|) {
      RecognisedStep(c, calls, call, s, s');
    } else {
      SilentStep(c, calls, call, s, s');
    }
  }

  // What one model response does to the state.
  lemma ModelReflects(c: Config, calls: seq<Callback>, call: Callback, s: State)
    requires Reflects(c, calls, s) && Sound(c, s) && call.Model? && React(c, s, call).1.Ok?
    ensures Reflects(c, calls + [call], React(c, s, call).0)
  {
    if Speaks(call) && !s.disabled {
      TextReflects(c, calls, call, s, React(c, s, call).0);
    } else {
      var calls', n := calls + [call], |calls|;
      HeardSnoc(calls, call);
      SpoiltSnoc(c, calls, call);
      assert calls'[..n + 1] == calls' && calls'[n] == call;
      SilentStep(c, calls, call, s, React(c, s, call).0);
    }
  }

  lemma CallbackReflects(c: Config, calls: seq<Callback>, call: Callback, s: State)
    requires Reflects(c, calls, s) && Sound(c, s) && React(c, s, call).1.Ok?
    ensures Reflects(c, calls + [call], React(c, s, call).0)
  {
    match call {
      case Tool =>
        HeardSnoc(calls, call);
        SilentStep(c, calls, call, s, s);
      case BeforeModel => ResetForgets(c, calls, call);
      case Model(_, _) => ModelReflects(c, calls, call, s);
    }
  }

  // Over any callbacks of a prepared batch: what is published is what the gate lets through. Without an answer to the
  // first recognised reply since the last reset, or with a refusal, that is nothing; with leave it is the public form
  // of the latest recognised message.
  lemma {:induction false} PublishedIsLetThrough(c: Config, s: State, calls: seq<Callback>)
    requires Batch(c, Prepare(s), calls).1.Ok?
    ensures Reflects(c, calls, Batch(c, Prepare(s), calls).0)
    ensures LetThrough(c, calls, Batch(c, Prepare(s), calls).1.value)
  {
    BatchKeeps(c, Prepare(s), calls);
    if calls != [] {
      var n := |calls| - 1;
      PublishedIsLetThrough(c, s, calls[..n]);
      BatchKeeps(c, Prepare(s), calls[..n]);
      CallbackReflects(c, calls[..n], calls[n], Batch(c, Prepare(s), calls[..n]).0);
      SplitLast(calls);
    }
  }

  // A refusal keeps the whole batch silent.
  lemma RefusalIsSilent(c: Config, s: State, calls: seq<Callback>, k: nat)
    requires Batch(c, Prepare(s), calls).1.Ok? && FirstAsk(c, calls, k) && !calls[k].allow
    ensures Batch(c, Prepare(s), calls).1.value == ""
  {
    PublishedIsLetThrough(c, s, calls);
    assert forall j: nat :: FirstAsk(c, calls, j) ==> j == k;
  }

  // What a next callback that follows a published delta must not be: work, or a text that breaks with it.
  ghost predicate BreaksReply(c: Config, calls: seq<Callback>, call: Callback) {
    || call.Tool? || call.BeforeModel? || HasCall(call.response.parts)
    || (Speaks(call) && (TooLong(c, Heard(calls + [call]))
                         || (!call.response.partial && !(Heard(calls) <= SpokenText(call.response.parts)))))
  }

  // The message it brings, allowed by the gate, does not extend what was published.
  ghost predicate Retracts(c: Config, calls: seq<Callback>, call: Callback, published: string) {
    var calls', n := calls + [call], |calls|;
    && Recognised(c, calls', n) && Answered(c, calls', true)
    && var message := Message(c, calls', n);
       !(published <= if call.response.partial then c.prefix(message) else c.redact(message))
  }

  // What breaks with the reply in a chunk.
  predicate Breaks(c: Config, s: State, spoken: string, partial: bool, text: string) {
    TooLong(c, text) || (!partial && !(s.raw <= spoken))
  }

  lemma TextRaises(c: Config, s: State, spoken: string, partial: bool, allow: bool, text: string)
    requires s.started && text == (if partial then s.raw + spoken else spoken) && Breaks(c, s, spoken, partial, text)
    ensures AfterText(c, s, spoken, partial, allow).1.Err?
  {
  }

  lemma TextGoesOn(c: Config, s: State, spoken: string, partial: bool, allow: bool, text: string)
    requires text == (if partial then s.raw + spoken else spoken) && !(s.started && Breaks(c, s, spoken, partial, text))
    ensures var next := AfterText(c, s, spoken, partial, allow);
            if TooLong(c, text) || !ParseReply(c.parser, text).Reply? then next.1.Ok?
            else next == Publish(c, s.(raw := text), ParseReply(c.parser, text).step, partial, allow)
  {
  }

  // The gate's answer once this reply has been seen.
  function Asked(c: Config, s: State, message: string, allow: bool): Option<bool> {
    if s.allowed.None? && !c.blank(message) then Some(allow) else s.allowed
  }

  // The public form of this reply is allowed and does not extend what is shown.
  predicate TakesBack(c: Config, s: State, text: string, partial: bool, allow: bool) {
    var parsed := ParseReply(c.parser, text);
    !TooLong(c, text) && parsed.Reply? && Asked(c, s, parsed.step.message, allow) == Some(true)
    && !(s.shown <= Public(c, parsed.step.message, partial))
  }

  lemma TextRaisesIff(c: Config, s: State, spoken: string, partial: bool, allow: bool, text: string)
    requires text == if partial then s.raw + spoken else spoken
    ensures AfterText(c, s, spoken, partial, allow).1.Err?
            <==> (s.started && Breaks(c, s, spoken, partial, text)) || TakesBack(c, s, text, partial, allow)
  {
    if s.started && Breaks(c, s, spoken, partial, text) {
      TextRaises(c, s, spoken, partial, allow, text);
    } else {
      TextGoesOn(c, s, spoken, partial, allow, text);
    }
  }

  lemma TakesBackIff(c: Config, calls: seq<Callback>, call: Callback, s: State)
    requires Reflects(c, calls, s) && Speaks(call) && !s.disabled
    ensures TakesBack(c, s, Heard(calls + [call]), call.response.partial, call.allow)
            <==> Retracts(c, calls, call, s.shown)
  {
    var text := Heard(calls + [call]);
    RecognisedIff(c, calls, call);
    if Recognised(c, calls + [call], |calls|) {
      var message := ParseReply(c.parser, text).step.message;
      RecognisedAnswers(c, calls, call, s.allowed, Asked(c, s, message, call.allow), true);
    }
  }

  lemma SpeechRaisesIff(c: Config, calls: seq<Callback>, call: Callback, s: State)
    requires Reflects(c, calls, s) && Speaks(call) && !s.disabled
    ensures React(c, s, call).1.Err?
            <==> (s.started && BreaksReply(c, calls, call)) || Retracts(c, calls, call, s.shown)
  {
    var spoken := SpokenText(call.response.parts);
    HeardSnoc(calls, call);
    EmptySides(spoken);
    TakesBackIff(c, calls, call, s);
    TextRaisesIff(c, s, spoken, call.response.partial, call.allow, Heard(calls + [call]));
  }

  // When a batch raises at its next callback: exactly when that breaks with a published delta, or would take it back.
  lemma RaisesIff(c: Config, s: State, calls: seq<Callback>, call: Callback)
    requires Batch(c, Prepare(s), calls).1.Ok?
    ensures var published := Batch(c, Prepare(s), calls).1.value;
            Batch(c, Prepare(s), calls + [call]).1.Err?
            <==> (published != "" && BreaksReply(c, calls, call)) || Retracts(c, calls, call, published)
  {
    var now := Batch(c, Prepare(s), calls).0;
    PublishedIsLetThrough(c, s, calls);
    BatchKeeps(c, Prepare(s), calls);
    assert (calls + [call])[..|calls|] == calls;
    if call.Model? && Speaks(call) && !now.disabled {
      SpeechRaisesIff(c, calls, call, now);
    } else {
      assert !Speaks(call) ==> !Recognised(c, calls + [call], |calls|);
    }
  }

  // ---------------------------------------------------------------- the object

  class PublicReplyStream {
    const config: Config
    var prepared: bool
    var started: bool
    var raw: string
    var shown: string
    var allowed: Option<bool>
    var disabled: bool

    ghost function View(): State
      reads this
    {
      State(prepared, started, raw, shown, allowed, disabled)
    }

    constructor (config: Config)
      ensures View() == INITIAL && this.config == config
    {
      this.config := config;
      prepared, started, raw, shown, allowed, disabled := false, false, "", "", None, false;
    }

    method PrepareBatch()
      modifies this
      ensures View() == Prepare(old(View()))
    {
      prepared := true;
      started := false;
      ResetResponse();
    }

    method ResetResponse()
      modifies this`raw, this`shown, this`allowed, this`disabled
      ensures View() == Reset(old(View()))
    {
      raw, shown := "", "";
      allowed := None;
      disabled := false;
    }

    method BeforeModelCall() returns (r: Result<string, ()>)
      modifies this
      ensures (View(), r) == React(config, old(View()), BeforeModel)
    {
      if started {
        return Err(());
      }
      ResetResponse();
      return Ok("");
    }

    // Joining the non-thought parts of a response.
    static method Join(parts: seq<Part>) returns (text: string)
      ensures text == SpokenText(parts)
    {
      text := "";
      assert parts[..0] == [];
      for i := 0 to |parts|
        invariant text == SpokenText(parts[..i])
      {
        assert parts[..i + 1][..i] == parts[..i];
        if !parts[i].thought {
          text := text + parts[i].text;
        } else {
          assert text + "" == text;
        }
      }
      assert parts[..|parts|] == parts;
    }

    method AfterModelCall(response: Response, allow: bool) returns (r: Result<string, ()>)
      modifies this
      ensures (View(), r) == AfterModel(config, old(View()), response, allow)
    {
      if HasCall(response.parts) {
        if started {
          return Err(());
        }
        disabled := true;
        return Ok("");
      }
      var text := Join(response.parts);
      if disabled || !prepared || text == "" {
        return Ok("");
      }
      var whole := text;
      if response.partial {
        whole := raw + text;
      } else if started && !(raw <= whole) {
        return Err(());
      }
      if |whole| > MAX_HEADER_CHARS + MAX_REPLY_CHARS + 1 {
        if started {
          return Err(());
        }
        disabled := true;
        return Ok("");
      }
      raw := whole;
      match ParseReply(config.parser, raw)
      case Malformed =>
        if started {
          return Err(());
        }
        disabled := true;
        return Ok("");
      case NotAReply =>
        return Ok("");
      case Reply(step) =>
        if allowed.None? && !config.blank(step.message) {
          allowed := Some(allow);
        }
        if allowed != Some(true) {
          return Ok("");
        }
        var text := Public(config, step.message, response.partial);
        if !(shown <= text) {
          return Err(());
        }
        var delta := text[|shown|..];
        if delta != "" {
          started := true;
          shown := text;
        }
        return Ok(delta);
    }

    method FinishBatch(step: AgentStep) returns (r: Result<AgentStep, ()>)
      ensures r == Finish(config, View(), step)
    {
      if !started {
        return Ok(step);
      }
      if ParseReply(config.parser, raw) != Reply(step) {
        return Err(());
      }
      return Ok(step.(message := config.redact(step.message)));
    }
  }
}
