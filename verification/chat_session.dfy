/**
 * The chat transcript of the session: each submitted question is appended,
 * the whole transcript is sent as one prompt to the agent of the selected
 * topic, and exactly one assistant turn (the answer, a placeholder or an
 * error text) is appended after it. The agents themselves are opaque: each
 * is a function from the prompt text to what its `invoke` produced.
 */
module ChatSession {
  import opened Common

  datatype Role = User | Assistant

  /** One transcript entry, `{"role": ..., "content": ...}`. */
  datatype Message = Message(role: Role, content: string)

  /**
   * What an agent's `invoke` produced: a dictionary (with its `output` entry,
   * absent when the key is), any other value already turned into its string
   * form, or an exception derived from `Exception` (the only kind the
   * handler catches) with its message.
   */
  datatype AgentOutcome = Structured(output: Option<string>) | Raw(text: string) | Failure(msg: string)

  /** An agent bound to one topic's table. */
  type Agent = string -> AgentOutcome

  const NoResponse: string := "No valid response received."
  const ErrorPrefix: string := "Error occurred: "

  // ---------------------------------------------------------------------
  // Whitespace and `str.strip()`
  // ---------------------------------------------------------------------

  /** The characters Python's `str.isspace` (and so `str.strip()`) treats as whitespace. */
  predicate IsSpace(c: char)
  {
    var n := c as int;
    (0x09 <= n <= 0x0D) || (0x1C <= n <= 0x20) || n == 0x85 || n == 0xA0 || n == 0x1680
    || (0x2000 <= n <= 0x200A) || n == 0x2028 || n == 0x2029 || n == 0x202F || n == 0x205F
    || n == 0x3000
  }

  /** Every character is whitespace (this includes the empty string). */
  predicate IsBlank(s: string)
  {
    forall i :: 0 <= i < |s| ==> IsSpace(s[i])
  }

  /** `s` without its leading whitespace: the longest suffix not starting with whitespace. */
  function TrimStart(s: string): (r: string)
    ensures |r| <= |s| && r == s[|s| - |r|..]
    ensures r != [] ==> !IsSpace(r[0])
    ensures forall i :: 0 <= i < |s| - |r| ==> IsSpace(s[i])
  {
    if s != [] && IsSpace(s[0]) then TrimStart(s[1..]) else s
  }

  /** `s` without its trailing whitespace: the longest prefix not ending with whitespace. */
  function TrimEnd(s: string): (r: string)
    ensures |r| <= |s| && r == s[..|r|]
    ensures r != [] ==> !IsSpace(r[|r| - 1])
    ensures forall i :: |r| <= i < |s| ==> IsSpace(s[i])
  {
    if s != [] && IsSpace(s[|s| - 1]) then TrimEnd(s[..|s| - 1]) else s
  }

  /** `str.strip()` without arguments. */
  function Strip(s: string): string
  {
    TrimEnd(TrimStart(s))
  }

  lemma TrimStartEmpty(s: string)
    ensures TrimStart(s) == [] <==> IsBlank(s)
  {
    var r := TrimStart(s);
    if r != [] {
      assert s[|s| - |r|] == r[0];
    }
  }

  lemma TrimEndEmpty(s: string)
    ensures TrimEnd(s) == [] <==> IsBlank(s)
  {
    var r := TrimEnd(s);
    if r != [] {
      assert s[|r| - 1] == r[|r| - 1];
    }
  }

  /** `s.strip()` is empty, hence falsy, exactly when `s` is all whitespace. */
  lemma StripEmptyIffBlank(s: string)
    ensures Strip(s) == [] <==> IsBlank(s)
  {
    var t := TrimStart(s);
    TrimStartEmpty(s);
    TrimEndEmpty(t);
  }

  // ---------------------------------------------------------------------
  // Normalising the agent's result (the try block and its handler)
  // ---------------------------------------------------------------------

  /** The text taken from a non-failing result: `output` (default "") or the string form. */
  function ResponseText(outcome: AgentOutcome): string
    requires !outcome.Failure?
  {
    match outcome
    case Structured(output) => output.GetOr("")
    case Raw(text) => text
  }

  /**
   * The assistant's turn text. It is never blank: a blank answer becomes the
   * placeholder and an exception becomes the error text. Any other answer
   * passes through unchanged.
   */
  function Reply(outcome: AgentOutcome): (r: string)
    ensures !IsBlank(r)
    ensures outcome.Failure? ==> r == ErrorPrefix + outcome.msg
    ensures !outcome.Failure? ==> r == ResponseText(outcome) || r == NoResponse
  {
    assert !IsSpace(NoResponse[0]) && !IsSpace((ErrorPrefix + [])[0]);
    match outcome
    case Failure(msg) =>
      assert (ErrorPrefix + msg)[0] == ErrorPrefix[0];
      ErrorPrefix + msg
    case _ =>
      var text := ResponseText(outcome);
      StripEmptyIffBlank(text);
      if Strip(text) == [] then NoResponse else text
  }

  /** A non-blank answer reaches the transcript exactly as the agent gave it. */
  lemma ReplyKeepsAnswer(outcome: AgentOutcome)
    requires !outcome.Failure? && !IsBlank(ResponseText(outcome))
    ensures Reply(outcome) == ResponseText(outcome)
  {
    StripEmptyIffBlank(ResponseText(outcome));
  }

  /** A blank answer, including a dictionary without `output`, becomes the placeholder. */
  lemma ReplyReplacesBlank(outcome: AgentOutcome)
    requires !outcome.Failure? && IsBlank(ResponseText(outcome))
    ensures Reply(outcome) == NoResponse
  {
    StripEmptyIffBlank(ResponseText(outcome));
  }

  /** Normalising a normalised reply again changes nothing. */
  lemma ReplyStable(outcome: AgentOutcome)
    ensures Reply(Raw(Reply(outcome))) == Reply(outcome)
  {
    ReplyKeepsAnswer(Raw(Reply(outcome)));
  }

  // ---------------------------------------------------------------------
  // The prompt: every content joined with newlines, roles left out
  // ---------------------------------------------------------------------

  /** `"\n".join(parts)`. */
  function Join(parts: seq<string>): string
  {
    if |parts| == 0 then ""
    else if |parts| == 1 then parts[0]
    else Join(parts[..|parts| - 1]) + "\n" + parts[|parts| - 1]
  }

  /** The number of characters of all parts together. */
  function CharCount(parts: seq<string>): nat
  {
    if parts == [] then 0 else CharCount(parts[..|parts| - 1]) + |parts[|parts| - 1]|
  }

  /** Where part `k` starts in the joined text: after every earlier part and its newline. */
  function Offset(parts: seq<string>, k: nat): nat
    requires k <= |parts|
  {
    CharCount(parts[..k]) + k
  }

  /** The joined text is the parts plus one newline between each two. */
  lemma {:induction false} JoinLength(parts: seq<string>)
    requires parts != []
    ensures |Join(parts)| == CharCount(parts) + |parts| - 1
  {
    if |parts| > 1 {
      JoinLength(parts[..|parts| - 1]);
    } else {
      assert parts[..0] == [];
    }
  }

  /**
   * Part `k` appears whole at its offset, and a newline separates it from
   * the part before.
   */
  lemma {:induction false} JoinAt(parts: seq<string>, k: nat)
    requires k < |parts|
    ensures Offset(parts, k) + |parts[k]| <= |Join(parts)|
    ensures Join(parts)[Offset(parts, k)..Offset(parts, k) + |parts[k]|] == parts[k]
    ensures k > 0 ==> Join(parts)[Offset(parts, k) - 1] == '\n'
  {
    var n := |parts| - 1;
    var init := parts[..n];
    if n == 0 {
      assert parts[..0] == [];
    } else if k == n {
      JoinLength(init);
      assert parts[..k] == init;
    } else {
      JoinAt(init, k);
      assert init[..k] == parts[..k];
    }
  }

  /** Joining one more part appends a newline and that part. */
  lemma JoinSnoc(parts: seq<string>, p: string)
    ensures Join(parts + [p]) == if parts == [] then p else Join(parts) + "\n" + p
  {
    assert (parts + [p])[..|parts|] == parts;
  }

  /** The contents of the transcript, in order. */
  function Contents(messages: seq<Message>): seq<string>
  {
    seq(|messages|, i requires 0 <= i < |messages| => messages[i].content)
  }

  /** The conversation history sent to the agent. */
  function History(messages: seq<Message>): string
  {
    Join(Contents(messages))
  }

  // ---------------------------------------------------------------------
  // One turn
  // ---------------------------------------------------------------------

  /** The text of the key error raised by `agents[topic]` for an unknown topic. */
  function KeyErrorText(topic: string): string
  {
    "'" + topic + "'"
  }

  /** Looking up the topic's agent and invoking it on the prompt, inside the `try`. */
  function Invoke(agents: map<string, Agent>, topic: string, prompt: string): AgentOutcome
  {
    if topic in agents then agents[topic](prompt) else Failure(KeyErrorText(topic))
  }

  /** The transcript after the question `question` was submitted on `transcript`. */
  function AfterSubmit(transcript: seq<Message>, question: string, topic: string, agents: map<string, Agent>)
    : (after: seq<Message>)
    ensures |after| == |transcript| + 2
    ensures after[..|transcript|] == transcript
    ensures after[|transcript|] == Message(User, question)
    ensures after[|transcript| + 1].role == Assistant && !IsBlank(after[|transcript| + 1].content)
  {
    var asked := transcript + [Message(User, question)];
    asked + [Message(Assistant, Reply(Invoke(agents, topic, History(asked))))]
  }

  /**
   * The prompt of a turn is the previous history, a newline and the new
   * question; assistant replies of earlier turns are part of it.
   */
  lemma PromptExtendsHistory(transcript: seq<Message>, question: string)
    ensures History(transcript + [Message(User, question)])
            == if transcript == [] then question else History(transcript) + "\n" + question
  {
    var asked := transcript + [Message(User, question)];
    assert Contents(asked) == Contents(transcript) + [question];
    JoinSnoc(Contents(transcript), question);
  }

  /** The assistant turn of a submit carries the agent's reply to the whole history. */
  lemma SubmitReply(transcript: seq<Message>, question: string, topic: string, agents: map<string, Agent>)
    requires topic in agents
    ensures AfterSubmit(transcript, question, topic, agents)[|transcript| + 1].content
            == Reply(agents[topic](History(transcript + [Message(User, question)])))
  {
  }

  /** An unknown topic does not reach any agent; its key error becomes the reply. */
  lemma SubmitUnknownTopic(transcript: seq<Message>, question: string, topic: string, agents: map<string, Agent>)
    requires topic !in agents
    ensures AfterSubmit(transcript, question, topic, agents)[|transcript| + 1].content
            == ErrorPrefix + "'" + topic + "'"
  {
  }

  /**
   * A well-formed transcript alternates question and reply, starting with a
   * question and ending with a reply, and no reply is blank.
   */
  predicate WellFormed(messages: seq<Message>)
  {
    |messages| % 2 == 0
    && (forall i :: 0 <= i < |messages| ==> (messages[i].role == User <==> i % 2 == 0))
    && (forall i :: 0 <= i < |messages| && messages[i].role == Assistant ==> !IsBlank(messages[i].content))
  }

  /** Appending a question and a non-blank reply keeps a transcript well formed. */
  lemma AppendTurnKeepsWellFormed(transcript: seq<Message>, question: Message, answer: Message)
    requires WellFormed(transcript)
    requires question.role == User && answer.role == Assistant && !IsBlank(answer.content)
    ensures WellFormed(transcript + [question, answer])
  {
    var after := transcript + [question, answer];
    var n := |transcript|;
    forall i | 0 <= i < |after|
      ensures (after[i].role == User <==> i % 2 == 0)
      ensures after[i].role == Assistant ==> !IsBlank(after[i].content)
    {
      if i < n {
        assert after[i] == transcript[i];
      }
    }
  }

  /** A submit keeps the transcript well formed. */
  lemma SubmitKeepsWellFormed(transcript: seq<Message>, question: string, topic: string, agents: map<string, Agent>)
    requires WellFormed(transcript)
    ensures WellFormed(AfterSubmit(transcript, question, topic, agents))
  {
    var after := AfterSubmit(transcript, question, topic, agents);
    var n := |transcript|;
    assert after == transcript + [after[n], after[n + 1]] by {
      assert after == after[..n] + [after[n], after[n + 1]];
    }
    AppendTurnKeepsWellFormed(transcript, after[n], after[n + 1]);
  }

  // ---------------------------------------------------------------------
  // The session's transcript
  // ---------------------------------------------------------------------

  /** `st.session_state.messages`. */
  class ChatState {
    var messages: seq<Message>

    ghost predicate Valid()
      reads this
    {
      WellFormed(messages)
    }

    /** The transcript is created empty when the session has none. */
    constructor ()
      ensures Valid() && messages == []
    {
      messages := [];
    }

    /**
     * The chat input handler. Nothing happens without input or with an empty
     * one (both are falsy); otherwise the question is appended, the agent of
     * `topic` answers the joined history, and the reply is appended.
     */
    method OnChatInput(input: Option<string>, topic: string, agents: map<string, Agent>)
      requires Valid()
      modifies this
      ensures Valid()
      ensures input.None? || input.value == "" ==> messages == old(messages)
      ensures input.Some? && input.value != "" ==>
                messages == AfterSubmit(old(messages), input.value, topic, agents)
    {
      if input.Some? && input.value != "" {
        var question := input.value;
        ghost var before := messages;
        messages := messages + [Message(User, question)];
        var conversation := History(messages);
        var content: string;
        if topic in agents {
          var agent := agents[topic];
          content := Reply(agent(conversation));
        } else {
          content := Reply(Failure(KeyErrorText(topic)));
        }
        messages := messages + [Message(Assistant, content)];
        SubmitKeepsWellFormed(before, question, topic, agents);
      }
    }

    /** The "Clear Chat" button empties the transcript. */
    method Clear()
      modifies this
      ensures Valid() && messages == []
    {
      messages := [];
    }
  }
}
