/**
 * A conversation of the detective scenario: two participants, the
 * messages said so far (each possibly showing a clue or quoting an earlier
 * message), where and when it started, and whether it has ended.
 */
module DetConversation {
  import opened Common

  /** `Message`. */
  datatype Message = Message(
    speaker: string,
    content: string,
    day: int,
    time: string,
    attachedClue: Option<string>,
    quotedMessageIdx: Option<int>)

  /** `Conversation`. */
  datatype Conversation = Conversation(
    id: string,
    participants: seq<string>,
    messages: seq<Message>,
    location: string,
    startedDay: int,
    startedTime: string,
    ended: bool)

  /**
   * `Conversation.create`: the two participants in order, no messages, not
   * ended. The id, the first eight characters of a random UUID in Python,
   * is a parameter.
   */
  function Create(id: string, p1: string, p2: string, location: string, day: int, time: string): (c: Conversation)
    ensures c.id == id && c.participants == [p1, p2] && c.messages == [] && !c.ended
    ensures c.location == location && c.startedDay == day && c.startedTime == time
  {
    Conversation(id, [p1, p2], [], location, day, time, false)
  }

  /** `Conversation.add_message`: the conversation with one more message, and that message. */
  function AddMessage(c: Conversation, speaker: string, content: string, day: int, time: string,
                      clue: Option<string>, quoted: Option<int>): (r: (Conversation, Message))
  {
    var m := Message(speaker, content, day, time, clue, quoted);
    (c.(messages := c.messages + [m]), m)
  }

  /**
   * `add_message` appends exactly one message, at the end, carrying what
   * was said, and returns it; nothing else about the conversation changes.
   */
  lemma AddMessageAppends(c: Conversation, speaker: string, content: string, day: int, time: string,
                          clue: Option<string>, quoted: Option<int>)
    ensures var (c1, m) := AddMessage(c, speaker, content, day, time, clue, quoted);
      |c1.messages| == |c.messages| + 1 && c1.messages[..|c.messages|] == c.messages &&
      c1.messages[|c.messages|] == m &&
      m.speaker == speaker && m.content == content && m.day == day && m.time == time &&
      m.attachedClue == clue && m.quotedMessageIdx == quoted &&
      c1.(messages := c.messages) == c
  {
    var (c1, m) := AddMessage(c, speaker, content, day, time, clue, quoted);
    assert c1.messages[..|c.messages|] == c.messages;
  }

  /**
   * `get_other_participant`: the first participant who is not `current`,
   * or `None` when every participant is `current`.
   */
  method GetOtherParticipant(c: Conversation, current: string) returns (r: Option<string>)
    ensures r.None? <==> forall i :: 0 <= i < |c.participants| ==> c.participants[i] == current
    ensures r.Some? ==> exists i :: 0 <= i < |c.participants| && c.participants[i] == r.value && r.value != current &&
                                     forall k :: 0 <= k < i ==> c.participants[k] == current
  {
    var i := 0;
    while i < |c.participants|
      invariant 0 <= i <= |c.participants|
      invariant forall k :: 0 <= k < i ==> c.participants[k] == current
    {
      if c.participants[i] != current {
        return Some(c.participants[i]);
      }
      i := i + 1;
    }
    return None;
  }

  /** `get_message_by_idx`: the message at `idx` when it is in range. */
  function GetMessageByIdx(c: Conversation, idx: int): (m: Option<Message>)
    ensures m.Some? <==> 0 <= idx < |c.messages|
    ensures m.Some? ==> m.value == c.messages[idx]
  {
    if 0 <= idx < |c.messages| then Some(c.messages[idx]) else None
  }

  /** How much of a quoted message `format_history` shows. */
  const QUOTE_LENGTH := 30

  /**
   * One line of `format_history`: the speaker in brackets, the clue shown
   * if any, an excerpt of the quoted message when the index finds one in
   * the whole conversation, then the content.
   */
  function Line(c: Conversation, m: Message): string
  {
    var prefix := "[" + m.speaker + "]";
    var withClue := if Present(m.attachedClue) then prefix + " (出示证据: " + m.attachedClue.value + ")" else prefix;
    var withQuote :=
      if m.quotedMessageIdx.Some? && GetMessageByIdx(c, m.quotedMessageIdx.value).Some?
      then withClue + " (引用: \"" + PyHead(GetMessageByIdx(c, m.quotedMessageIdx.value).value.content, QUOTE_LENGTH) + "...\")"
      else withClue;
    withQuote + ": " + m.content
  }

  /**
   * Every line starts with the bracketed speaker and ends with the
   * message's content; a line with neither a clue nor a quote found is
   * just those two.
   */
  lemma LineShape(c: Conversation, m: Message)
    ensures var l := Line(c, m);
      |l| >= |m.speaker| + 4 + |m.content| &&
      l[..|m.speaker| + 2] == "[" + m.speaker + "]" &&
      l[|l| - |m.content|..] == m.content && l[|l| - |m.content| - 2..|l| - |m.content|] == ": "
    ensures !Present(m.attachedClue) && (m.quotedMessageIdx.None? || GetMessageByIdx(c, m.quotedMessageIdx.value).None?) ==>
              Line(c, m) == "[" + m.speaker + "]: " + m.content
  {
    var prefix := "[" + m.speaker + "]";
    var l := Line(c, m);
    var head := l[..|l| - |m.content| - 2];
    assert l == head + ": " + m.content;
    assert head[..|prefix|] == prefix;
  }

  /** The messages `format_history` shows: the last `maxMessages`, as Python's slice gives them. */
  function Recent(c: Conversation, maxMessages: int): (r: seq<Message>)
    ensures |r| <= |c.messages| && r == c.messages[|c.messages| - |r|..]
    ensures maxMessages > 0 ==> |r| == if maxMessages <= |c.messages| then maxMessages else |c.messages|
  {
    if |c.messages| > maxMessages then PyTail(c.messages, maxMessages) else c.messages
  }

  /** The lines for a run of messages, one each, in order. */
  function Lines(c: Conversation, ms: seq<Message>): (ls: seq<string>)
    ensures |ls| == |ms| && forall i :: 0 <= i < |ms| ==> ls[i] == Line(c, ms[i])
  {
    if ms == [] then [] else Lines(c, ms[..|ms| - 1]) + [Line(c, ms[|ms| - 1])]
  }

  /**
   * `format_history`: one line per recent message, in order, joined by
   * newlines.
   */
  method FormatHistory(c: Conversation, maxMessages: int) returns (text: string)
    ensures text == Join(Lines(c, Recent(c, maxMessages)), "\n")
  {
    var recent := Recent(c, maxMessages);
    var lines: seq<string> := [];
    var i := 0;
    while i < |recent|
      invariant 0 <= i <= |recent|
      invariant lines == Lines(c, recent[..i])
    {
      assert recent[..i + 1][..i] == recent[..i];
      lines := lines + [Line(c, recent[i])];
      i := i + 1;
    }
    assert recent[..i] == recent;
    text := Join(lines, "\n");
  }

  /**
   * `format_history` shows exactly the last `maxMessages` messages, one
   * line each, in their order; an empty conversation formats as the empty
   * text.
   */
  lemma FormatShowsRecent(c: Conversation, maxMessages: int)
    requires maxMessages > 0
    ensures var ls := Lines(c, Recent(c, maxMessages));
      |ls| == (if maxMessages <= |c.messages| then maxMessages else |c.messages|) &&
      forall i :: 0 <= i < |ls| ==> ls[i] == Line(c, c.messages[|c.messages| - |ls| + i])
    ensures c.messages == [] ==> Join(Lines(c, Recent(c, maxMessages)), "\n") == ""
  {
  }
}
