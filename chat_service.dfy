/**
 * The chat service's reply generation: the role-tagged conversation is
 * turned into the model's chat history (a system message becomes a user turn
 * answered by a fixed model turn), every turn but the last opens the chat,
 * and the last turn's text is sent. The generative model is passed in.
 */
module ChatService {
  import opened Wrappers
  import opened Strings

  /** The role of an incoming message; `Unknown` stands for any other role
      string, which the conversion skips. */
  datatype Role = User | Assistant | System | Unknown(name: string)

  datatype Message = Message(role: Role, content: string)

  /** The roles of the model's chat history. */
  datatype TurnRole = UserTurn | ModelTurn

  /** A history entry, with its single text part. */
  datatype Turn = Turn(role: TurnRole, text: string)

  const ACKNOWLEDGEMENT := "I understand."

  /** The entries one message becomes. */
  function TurnsOf(m: Message): (ts: seq<Turn>)
    ensures m.role.System? ==> ts == [Turn(UserTurn, m.content), Turn(ModelTurn, ACKNOWLEDGEMENT)]
    ensures m.role.User? ==> ts == [Turn(UserTurn, m.content)]
    ensures m.role.Assistant? ==> ts == [Turn(ModelTurn, m.content)]
    ensures m.role.Unknown? ==> ts == []
  {
    match m.role
    case System => [Turn(UserTurn, m.content), Turn(ModelTurn, ACKNOWLEDGEMENT)]
    case User => [Turn(UserTurn, m.content)]
    case Assistant => [Turn(ModelTurn, m.content)]
    case Unknown(_) => []
  }

  /** The chat history of a conversation, message by message. */
  function History(ms: seq<Message>): seq<Turn> {
    if ms == [] then [] else History(ms[..|ms| - 1]) + TurnsOf(ms[|ms| - 1])
  }

  function CountRole(ms: seq<Message>, r: Role): nat {
    if ms == [] then 0 else CountRole(ms[..|ms| - 1], r) + (if ms[|ms| - 1].role == r then 1 else 0)
  }

  function CountUnknown(ms: seq<Message>): nat {
    if ms == [] then 0 else CountUnknown(ms[..|ms| - 1]) + (if ms[|ms| - 1].role.Unknown? then 1 else 0)
  }

  /** The history of a concatenation is the concatenation of the histories:
      the conversion keeps the messages' order. */
  lemma {:induction false} HistoryAppend(a: seq<Message>, b: seq<Message>)
    ensures History(a + b) == History(a) + History(b)
    decreases |b|
  {
    if b == [] {
      assert a + b == a;
    } else {
      var b' := b[..|b| - 1];
      assert (a + b)[..|a + b| - 1] == a + b';
      assert (a + b)[|a + b| - 1] == b[|b| - 1];
      HistoryAppend(a, b');
    }
  }

  /** One entry per message, one more per system message, none for an
      unknown role. */
  lemma {:induction false} HistoryLength(ms: seq<Message>)
    ensures |History(ms)| == |ms| + CountRole(ms, System) - CountUnknown(ms)
  {
    if ms != [] {
      HistoryLength(ms[..|ms| - 1]);
      UnknownAtMost(ms[..|ms| - 1]);
    }
  }

  lemma {:induction false} UnknownAtMost(ms: seq<Message>)
    ensures CountUnknown(ms) <= |ms|
  {
    if ms != [] {
      UnknownAtMost(ms[..|ms| - 1]);
    }
  }

  /** No message has a role the conversion knows. */
  predicate AllUnknown(ms: seq<Message>) {
    forall i :: 0 <= i < |ms| ==> ms[i].role.Unknown?
  }

  /** The history is empty exactly when no message has a known role. */
  lemma {:induction false} HistoryEmpty(ms: seq<Message>)
    ensures History(ms) == [] <==> AllUnknown(ms)
  {
    if ms != [] {
      var init, last := ms[..|ms| - 1], ms[|ms| - 1];
      HistoryEmpty(init);
      assert History(ms) == History(init) + TurnsOf(last);
      AllUnknownSnoc(ms);
    }
  }

  lemma AllUnknownSnoc(ms: seq<Message>)
    requires ms != []
    ensures AllUnknown(ms) <==> AllUnknown(ms[..|ms| - 1]) && ms[|ms| - 1].role.Unknown?
  {
    var init := ms[..|ms| - 1];
    if AllUnknown(init) && ms[|ms| - 1].role.Unknown? {
      forall i | 0 <= i < |ms|
        ensures ms[i].role.Unknown?
      {
        if i < |init| {
          assert ms[i] == init[i];
        }
      }
    }
  }

  /** The conversion loop of `generateResponse`. */
  method ConvertHistory(messages: seq<Message>) returns (history: seq<Turn>)
    ensures history == History(messages)
  {
    history := [];
    var i := 0;
    while i < |messages|
      invariant 0 <= i <= |messages|
      invariant history == History(messages[..i])
    {
      var msg := messages[i];
      assert messages[..i + 1][..i] == messages[..i];
      match msg.role {
        case System =>
          history := history + [Turn(UserTurn, msg.content)];
          history := history + [Turn(ModelTurn, ACKNOWLEDGEMENT)];
        case User =>
          history := history + [Turn(UserTurn, msg.content)];
        case Assistant =>
          history := history + [Turn(ModelTurn, msg.content)];
        case Unknown(_) =>
      }
      i := i + 1;
    }
    assert messages[..i] == messages;
  }

  /** A value thrown inside `generateResponse`: an `Error` with its message,
      or anything else. */
  datatype Raised = ErrorRaised(message: string) | OtherRaised

  /** What `startChat` followed by `sendMessage` gives: the reply text, or
      the value thrown. */
  datatype Answer = Replied(text: string) | Raise(raised: Raised)

  const FAILURE_PREFIX := "Failed to generate response: "
  const UNKNOWN_ERROR := "Unknown error"

  /** The message of the `TypeError` raised when the last entry of an empty
      history is read. */
  const NO_LAST_ENTRY := "Cannot read properties of undefined (reading 'parts')"

  function Rethrown(e: Raised): (r: string)
    ensures r == FAILURE_PREFIX + (if e.ErrorRaised? then e.message else UNKNOWN_ERROR)
  {
    FAILURE_PREFIX + match e { case ErrorRaised(m) => m case OtherRaised => UNKNOWN_ERROR }
  }

  /** `generateResponse`: the reply text, or the message of the error it
      rethrows. `model` stands for the generative model, opened with a history
      and sent a text. */
  method GenerateResponse(messages: seq<Message>, model: (seq<Turn>, string) -> Answer)
    returns (reply: Result<string>)
    ensures History(messages) == [] ==> reply == Failure(Rethrown(ErrorRaised(NO_LAST_ENTRY)))
    ensures History(messages) != [] ==>
              var h := History(messages);
              var answer := model(h[..|h| - 1], h[|h| - 1].text);
              reply == if answer.Replied? then Success(answer.text) else Failure(Rethrown(answer.raised))
    ensures reply.Failure? ==> StartsWith(reply.error, FAILURE_PREFIX)
  {
    var chatHistory := ConvertHistory(messages);
    if |chatHistory| == 0 {
      return Failure(Rethrown(ErrorRaised(NO_LAST_ENTRY)));
    }
    var lastMessage := chatHistory[|chatHistory| - 1];
    var answer := model(chatHistory[..|chatHistory| - 1], lastMessage.text);
    match answer {
      case Replied(text) =>
        reply := Success(text);
      case Raise(raised) =>
        reply := Failure(Rethrown(raised));
    }
  }

  /** A conversation ending with a system message sends the acknowledgement,
      and opens the chat with everything before it plus the system text. */
  lemma TrailingSystemSendsAcknowledgement(ms: seq<Message>, text: string)
    ensures var h := History(ms + [Message(System, text)]);
            h != [] && h[|h| - 1].text == ACKNOWLEDGEMENT &&
            h[..|h| - 1] == History(ms) + [Turn(UserTurn, text)]
  {
    var m := Message(System, text);
    assert (ms + [m])[..|ms + [m]| - 1] == ms;
  }

  /** A conversation ending with a user message sends that message's text
      and opens the chat with the history of everything before it. */
  lemma TrailingUserSendsText(ms: seq<Message>, text: string)
    ensures var h := History(ms + [Message(User, text)]);
            h != [] && h[|h| - 1] == Turn(UserTurn, text) && h[..|h| - 1] == History(ms)
  {
    var m := Message(User, text);
    assert (ms + [m])[..|ms + [m]| - 1] == ms;
  }
}
