/**
 * The chat component itself: an object holding the transcript, the text box
 * contents and the loading flag, whose handlers update those fields in
 * place. Each handler is tied to the step of `ChatTurn` that specifies it,
 * and keeps the transcript invariant `ChatTurn.WellFormed`.
 */
module ChurnChatbot {
  import opened JsString
  import opened ChatTurn

  class Chatbot {
    var messages: seq<Message>
    var input: string
    var isLoading: bool

    /** The component's state as a value. */
    function Snapshot(): ChatState
      reads this
    {
      ChatState(messages, input, isLoading)
    }

    /** The transcript invariant holds of the current state. */
    ghost predicate Valid()
      reads this
    {
      WellFormed(Snapshot())
    }

    /** Mounting: the transcript is the greeting alone, the input empty, nothing in flight. */
    constructor ()
      ensures Valid()
      ensures messages == [Greeting] && input == "" && !isLoading
    {
      messages := [Greeting];
      input := "";
      isLoading := false;
      InitialWellFormed();
    }

    /** The text box's `onChange`. */
    method OnInputChange(text: string)
      requires Valid()
      modifies this
      ensures Valid()
      ensures input == text
      ensures messages == old(messages) && isLoading == old(isLoading)
    {
      EditKeepsWellFormed(Snapshot(), text);
      input := text;
    }

    /**
     * `handleSend` up to its `await`. Returns the text of the request body,
     * or None when the send is rejected, in which case nothing changes.
     */
    method BeginSend() returns (request: Option<string>)
      requires Valid()
      modifies this
      ensures Valid()
      ensures Snapshot() == Begin(old(Snapshot()))
      ensures request == Request(old(Snapshot()))
      ensures request.None? <==> AllWhitespace(old(input)) || old(isLoading)
      ensures request.Some? ==> messages == old(messages) + [Message(User, request.value)]
                                && input == "" && isLoading
      ensures CompletedTurns(Snapshot()) == CompletedTurns(old(Snapshot()))
    {
      BeginKeepsWellFormed(Snapshot());
      if Trim(input) == [] || isLoading {
        return None;
      }
      var userMessage := Trim(input);
      input := "";
      messages := messages + [Message(User, userMessage)];
      isLoading := true;
      request := Some(userMessage);
    }

    /**
     * `handleSend` after its `await`: the outcome becomes one assistant
     * message and the loading flag drops (the `finally` block).
     */
    method CompleteSend(outcome: Outcome)
      requires Valid() && isLoading
      modifies this
      ensures Valid()
      ensures Snapshot() == Complete(old(Snapshot()), outcome)
      ensures messages == old(messages) + [Message(Assistant, ReplyContent(outcome))]
      ensures !isLoading && input == old(input)
      ensures CompletedTurns(Snapshot()) == CompletedTurns(old(Snapshot())) + 1
    {
      CompleteKeepsWellFormed(Snapshot(), outcome);
      var content: string;
      match outcome {
        case Success(response) =>
          content := response;
        case AppError(message) =>
          content := ErrorPrefix + message;
        case TransportError =>
          content := TransportApology;
      }
      messages := messages + [Message(Assistant, content)];
      isLoading := false;
    }

    /**
     * `handleKeyPress`: Enter without Shift suppresses the default action
     * and starts a send; any other key changes nothing.
     */
    method HandleKeyPress(e: KeyEvent) returns (preventDefault: bool, request: Option<string>)
      requires Valid()
      modifies this
      ensures Valid()
      ensures preventDefault <==> e.key == "Enter" && !e.shiftKey
      ensures Snapshot() == KeyPress(old(Snapshot()), e)
      ensures request == (if preventDefault then Request(old(Snapshot())) else None)
    {
      preventDefault := false;
      request := None;
      if e.key == "Enter" && !e.shiftKey {
        preventDefault := true;
        request := BeginSend();
      }
    }

    /**
     * The send button's `disabled` attribute: set exactly when pressing it
     * would be rejected.
     */
    method IsSendDisabled() returns (disabled: bool)
      ensures disabled <==> AllWhitespace(input) || isLoading
      ensures disabled <==> Begin(Snapshot()) == Snapshot()
    {
      disabled := Trim(input) == [] || isLoading;
      SendDisabledIffRejected(Snapshot());
    }
  }
}
