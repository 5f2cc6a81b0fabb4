// harness/orchestration/reply.py: a one-line control header, then Markdown.
module Reply {
  import opened Wrappers

  const MAX_REPLY_CHARS := 16_000
  const MAX_HEADER_CHARS := 16_000

  datatype StepStatus = Answer | Continue | Verify | Blocked | Done

  // `control` stands for the remaining control fields of AgentStep.
  datatype AgentStep = AgentStep(status: StepStatus, control: string, message: string)

  // JSON parsing and field validation of a header line; a valid header carries no message of its own.
  type HeaderParser = string -> Option<AgentStep>

  // NotAReply is Python's None; Malformed is the ValueError of validating an overlong message.
  datatype Parsed = NotAReply | Malformed | Reply(step: AgentStep)

  // Position of the first newline, or the length of the text.
  function FirstNewline(text: string): (i: nat)
    ensures i <= |text|
    ensures i < |text| ==> text[i] == '\n'
    ensures forall j :: 0 <= j < i ==> text[j] != '\n'
  {
    if text == "" then 0 else if text[0] == '\n' then 0 else 1 + FirstNewline(text[1..])
  }

  function Header(parser: HeaderParser, line: string): Option<AgentStep> {
    if |line| > MAX_HEADER_CHARS then None else parser(line)
  }

  function ParseReply(parser: HeaderParser, text: string): Parsed {
    var i := FirstNewline(text);
    if i == |text| then NotAReply
    else
      var header := Header(parser, text[..i]);
      var message := text[i + 1..];
      if header.None? then NotAReply
      else if |message| > MAX_REPLY_CHARS then Malformed
      else Reply(header.value.(message := message))
  }

  // What is a reply, and which: a valid header line of at most 16000 characters, a newline, and any Markdown up to
  // 16000 characters, which becomes the message.
  lemma ReplyIs(parser: HeaderParser, line: string, message: string)
    requires '\n' !in line
    ensures ParseReply(parser, line).NotAReply?
    ensures var parsed := ParseReply(parser, line + "\n" + message);
            if |line| > 16_000 || parser(line).None? then parsed.NotAReply?
            else if |message| > 16_000 then parsed.Malformed?
            else parsed.Reply? && parsed.step.message == message
                 && parsed.step.(message := "") == parser(line).value.(message := "")
  {
    var text := line + "\n" + message;
    var i := FirstNewline(text);
    assert text[|line|] == '\n';
    assert forall j :: 0 <= j < |line| ==> text[j] == line[j];
    assert text[..|line|] == line && text[|line| + 1..] == message;
  }

  // As a recognized reply grows, its control fields stay and its message is only extended; it never turns back
  // into unrecognized text.
  lemma HeaderIsStable(parser: HeaderParser, text: string, longer: string)
    requires text <= longer && ParseReply(parser, text).Reply?
    ensures var step := ParseReply(parser, text).step;
            match ParseReply(parser, longer)
            case Reply(step') => step'.(message := "") == step.(message := "") && step.message <= step'.message
            case Malformed => |longer| > |text|
            case NotAReply => false
  {
    var i := FirstNewline(text);
    SameNewline(text, longer);
    assert longer[..i] == text[..i];
    if |longer[i + 1..]| <= MAX_REPLY_CHARS {
      assert longer[i + 1..][..|text| - i - 1] == text[i + 1..];
    }
  }

  lemma SameNewline(text: string, longer: string)
    requires text <= longer && FirstNewline(text) < |text|
    ensures FirstNewline(longer) == FirstNewline(text)
  {
    var i, j := FirstNewline(text), FirstNewline(longer);
    assert longer[i] == text[i] == '\n' && longer[..|text|] == text;
    assert j < |text| ==> text[j] == longer[j];
  }

  // A complete but invalid header can never become a reply by growing.
  lemma RejectedHeaderStaysRejected(parser: HeaderParser, text: string, longer: string)
    requires text <= longer && FirstNewline(text) < |text| && ParseReply(parser, text).NotAReply?
    ensures ParseReply(parser, longer).NotAReply?
  {
    SameNewline(text, longer);
    assert longer[..FirstNewline(text)] == text[..FirstNewline(text)];
  }
}
