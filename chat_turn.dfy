/**
 * The chat-turn state machine of the churn-prediction chat component, as
 * values: the transcript of messages, the text box contents and the
 * "request in flight" flag, and the steps that change them.
 *
 * One turn of `handleSend` runs in two phases, split at its `await`:
 * `Begin` (guard, trim, clear the text box, append the user message, raise
 * the flag) and `Complete` (turn the backend's outcome into one assistant
 * message, drop the flag).
 */
module ChatTurn {
  import opened JsString

  datatype Role = User | Assistant

  /** One `{role, content}` record of the transcript. */
  datatype Message = Message(role: Role, content: string)

  /**
   * What the `fetch` call and `response.json()` produce, seen by the
   * component: a body whose `status` is "success" (with its `response`
   * text), a body with any other status (with its `message` text), or a
   * thrown error (network failure or a body that is not JSON).
   */
  datatype Outcome = Success(response: string) | AppError(message: string) | TransportError

  /** The `key` and `shiftKey` fields of a key-press event. */
  datatype KeyEvent = KeyEvent(key: string, shiftKey: bool)

  /** The component's three pieces of state. */
  datatype ChatState = ChatState(messages: seq<Message>, input: string, isLoading: bool)

  datatype Option<T> = None | Some(value: T)

  /** The assistant greeting the transcript starts with. */
  const Greeting: Message := Message(Assistant,
    "👋 Hello! I'm your Telco Customer Churn Assistant. I can help you predict if a customer is likely to churn. Just tell me about the customer in your own words, or provide their details!")

  /** The marker every failure message starts with. */
  const FailureMarker: string := "❌ "

  /** Prefix of the message shown for a non-success reply. */
  const ErrorPrefix: string := FailureMarker + "Error: "

  /** The fixed message shown when the request throws. */
  const TransportApology: string := FailureMarker + ApologyText

  const ApologyText: string :=
    "Sorry, I encountered an error. " + "Please make sure the backend is running and try again."

  /** The state when the component mounts. */
  const InitialState: ChatState := ChatState([Greeting], "", false)

  // ---------------------------------------------------------------------
  // Steps

  /** The text box's `onChange`: the input becomes what the user typed. */
  function Edit(s: ChatState, text: string): (r: ChatState)
    ensures r.input == text
    ensures r.messages == s.messages && r.isLoading == s.isLoading
  {
    s.(input := text)
  }

  /**
   * The first phase of `handleSend`. Rejected (nothing changes) when the
   * trimmed input is empty or a request is in flight; otherwise the trimmed
   * input is appended as a user message, the text box is cleared and the
   * flag is raised.
   */
  function Begin(s: ChatState): (r: ChatState)
    ensures |s.messages| <= |r.messages| <= |s.messages| + 1
    ensures r.messages[..|s.messages|] == s.messages
    ensures r == s <==> AllWhitespace(s.input) || s.isLoading
  {
    if Trim(s.input) == [] || s.isLoading then
      s
    else
      var userMessage := Trim(s.input);
      ChatState(s.messages + [Message(User, userMessage)], "", true)
  }

  /** The text of the request body `{ message }` an accepted `Begin` sends. */
  function Request(s: ChatState): (m: Option<string>)
    ensures m.Some? <==> !AllWhitespace(s.input) && !s.isLoading
    ensures m.Some? ==> m.value != [] && Trimmed(m.value) && Begin(s).messages[|s.messages|].content == m.value
  {
    if Trim(s.input) == [] || s.isLoading then None else Some(Trim(s.input))
  }

  /**
   * The content of the assistant message an outcome becomes. Every failure
   * is shown with the failure marker, and the server's error message can be
   * read back from the text after the error prefix.
   */
  function ReplyContent(o: Outcome): (r: string)
    ensures !o.Success? ==> |r| >= |FailureMarker| && r[..|FailureMarker|] == FailureMarker
    ensures o.AppError? ==> |r| >= |ErrorPrefix| && r[..|ErrorPrefix|] == ErrorPrefix
                            && r[|ErrorPrefix|..] == o.message
  {
    match o
    case Success(response) => response
    case AppError(message) =>
      assert (ErrorPrefix + message)[..|ErrorPrefix|] == ErrorPrefix;
      assert (ErrorPrefix + message)[..|FailureMarker|] == ErrorPrefix[..|FailureMarker|];
      ErrorPrefix + message
    case TransportError =>
      assert TransportApology[..|FailureMarker|] == FailureMarker;
      TransportApology
  }

  /**
   * The second phase of `handleSend`: exactly one assistant message is
   * appended and the flag drops, whatever the outcome.
   */
  function Complete(s: ChatState, o: Outcome): (r: ChatState)
    requires s.isLoading
    ensures |r.messages| == |s.messages| + 1
    ensures r.messages[..|s.messages|] == s.messages
    ensures r.messages[|s.messages|].role == Assistant
    ensures r.messages[|s.messages|].content == ReplyContent(o)
    ensures !r.isLoading && r.input == s.input
  {
    s.(messages := s.messages + [Message(Assistant, ReplyContent(o))], isLoading := false)
  }

  /** `handleKeyPress`: Enter without Shift is a send attempt. */
  predicate IsSendKey(e: KeyEvent)
  {
    e.key == "Enter" && !e.shiftKey
  }

  /**
   * A key press. Enter without Shift on sendable input appends the trimmed
   * input as a user message, clears the input and raises the flag; Shift+Enter
   * and every other key change nothing.
   */
  function KeyPress(s: ChatState, e: KeyEvent): (r: ChatState)
    ensures e.key == "Enter" && !e.shiftKey && !AllWhitespace(s.input) && !s.isLoading ==>
              r == ChatState(s.messages + [Message(User, Trim(s.input))], "", true)
    ensures e.key == "Enter" && !e.shiftKey && (AllWhitespace(s.input) || s.isLoading) ==> r == s
    ensures e.key != "Enter" || e.shiftKey ==> r == s
  {
    if IsSendKey(e) then Begin(s) else s
  }

  /** The send button's `disabled` attribute: set iff the input is all white space or a request is in flight. */
  predicate SendDisabled(s: ChatState)
    ensures SendDisabled(s) <==> AllWhitespace(s.input) || s.isLoading
  {
    Trim(s.input) == [] || s.isLoading
  }

  // ---------------------------------------------------------------------
  // Properties of one step

  /** Begin is a no-op on white-space-only input or while a request is in flight. */
  lemma BeginRejected(s: ChatState)
    requires AllWhitespace(s.input) || s.isLoading
    ensures Begin(s) == s
  {
  }

  /**
   * An accepted Begin appends exactly one user message holding the trimmed
   * input (non-empty, no white space at its ends), keeps every earlier
   * message in place, clears the input and raises the flag.
   */
  lemma BeginAccepted(s: ChatState)
    requires !AllWhitespace(s.input) && !s.isLoading
    ensures var r := Begin(s);
      && |r.messages| == |s.messages| + 1
      && r.messages[..|s.messages|] == s.messages
      && r.messages[|s.messages|] == Message(User, Trim(s.input))
      && Trim(s.input) != [] && Trimmed(Trim(s.input))
      && r.input == "" && r.isLoading
  {
    assert Begin(s).messages[..|s.messages|] == s.messages;
  }

  /** A success reply is shown verbatim. */
  lemma SuccessShownVerbatim(s: ChatState, response: string)
    requires s.isLoading
    ensures Complete(s, Success(response)).messages == s.messages + [Message(Assistant, response)]
  {
  }

  /**
   * The two kinds of failure read differently: no server message makes an
   * application error look like the transport apology, and distinct server
   * messages give distinct replies.
   */
  lemma FailureKindsDistinct(m1: string, m2: string)
    ensures ReplyContent(AppError(m1)) != ReplyContent(TransportError)
    ensures ReplyContent(AppError(m1)) == ReplyContent(AppError(m2)) ==> m1 == m2
  {
    assert ReplyContent(AppError(m1))[|FailureMarker|] == 'E';
    assert TransportApology[|FailureMarker|] == ApologyText[0] == 'S';
  }

  /**
   * The send button is disabled exactly when Begin would be rejected, that
   * is, exactly when the input is all white space or a request is in flight.
   */
  lemma SendDisabledIffRejected(s: ChatState)
    ensures SendDisabled(s) <==> Begin(s) == s
    ensures SendDisabled(s) <==> AllWhitespace(s.input) || s.isLoading
  {
    if !SendDisabled(s) {
      assert |Begin(s).messages| == |s.messages| + 1;
    }
  }

  // ---------------------------------------------------------------------
  // The transcript invariant

  /**
   * The transcript opens with the greeting and then alternates user and
   * assistant messages; it ends with a user message exactly while a request
   * is in flight. Every user message is non-empty trimmed text.
   */
  predicate WellFormed(s: ChatState)
  {
    && |s.messages| >= 1
    && s.messages[0] == Greeting
    && (|s.messages| % 2 == 0 <==> s.isLoading)
    && (forall i :: 1 <= i < |s.messages| ==>
          s.messages[i].role == (if i % 2 == 1 then User else Assistant))
    && (forall i :: 1 <= i < |s.messages| && s.messages[i].role == User ==>
          s.messages[i].content != [] && Trim(s.messages[i].content) == s.messages[i].content)
  }

  /** Completed turns: one user and one assistant message each, after the greeting. */
  function CompletedTurns(s: ChatState): nat
  {
    if |s.messages| == 0 then 0 else (|s.messages| - 1) / 2
  }

  lemma InitialWellFormed()
    ensures WellFormed(InitialState) && CompletedTurns(InitialState) == 0
  {
  }

  lemma WellFormedLength(s: ChatState)
    requires WellFormed(s)
    ensures |s.messages| == 1 + 2 * CompletedTurns(s) + (if s.isLoading then 1 else 0)
  {
  }

  lemma EditKeepsWellFormed(s: ChatState, text: string)
    requires WellFormed(s)
    ensures WellFormed(Edit(s, text)) && CompletedTurns(Edit(s, text)) == CompletedTurns(s)
  {
  }

  /** Begin keeps the invariant and never completes a turn. */
  lemma BeginKeepsWellFormed(s: ChatState)
    requires WellFormed(s)
    ensures WellFormed(Begin(s)) && CompletedTurns(Begin(s)) == CompletedTurns(s)
  {
    if !SendDisabled(s) {
      TrimIdempotent(s.input);
      var r := Begin(s);
      assert forall i :: 1 <= i < |s.messages| ==> r.messages[i] == s.messages[i];
    }
  }

  /** Complete keeps the invariant and completes exactly one turn. */
  lemma CompleteKeepsWellFormed(s: ChatState, o: Outcome)
    requires WellFormed(s) && s.isLoading
    ensures WellFormed(Complete(s, o)) && CompletedTurns(Complete(s, o)) == CompletedTurns(s) + 1
  {
    var r := Complete(s, o);
    assert forall i :: 1 <= i < |s.messages| ==> r.messages[i] == s.messages[i];
  }

  // ---------------------------------------------------------------------
  // Whole conversations

  /** One user action: type `text`, press send, and receive `outcome` if the send went out. */
  datatype Turn = Turn(text: string, outcome: Outcome)

  /**
   * The state after one turn taken while no request is in flight: it ends
   * idle, having appended exactly the reference transcript of that turn.
   */
  function TakeTurn(s: ChatState, t: Turn): (r: ChatState)
    requires !s.isLoading
    ensures !r.isLoading
    ensures r.messages == s.messages + Exchange([t])
  {
    var typed := Edit(s, t.text);
    assert [t][1..] == [];
    if SendDisabled(typed) then typed else Complete(Begin(typed), t.outcome)
  }

  /**
   * The state after a sequence of turns, each one awaited before the next.
   * A conversation ends idle and only ever appends to the transcript; what
   * it appends is exactly the reference transcript of its turns.
   */
  function Converse(s: ChatState, turns: seq<Turn>): (r: ChatState)
    requires !s.isLoading
    ensures !r.isLoading
    ensures r.messages == s.messages + Exchange(turns)
    decreases |turns|
  {
    if turns == [] then s
    else
      var next := TakeTurn(s, turns[0]);
      var r := Converse(next, turns[1..]);
      ExchangeSplit(turns);
      AppendTwice(s.messages, Exchange([turns[0]]), Exchange(turns[1..]), Exchange(turns));
      r
  }

  /**
   * Reference transcript of a conversation: for each turn whose text is not
   * all white space, the trimmed text as a user message followed by the
   * reply as an assistant message, in submission order.
   */
  function Exchange(turns: seq<Turn>): seq<Message>
    decreases |turns|
  {
    if turns == [] then []
    else
      var t := turns[0];
      (if AllWhitespace(t.text) then []
       else [Message(User, Trim(t.text)), Message(Assistant, ReplyContent(t.outcome))])
      + Exchange(turns[1..])
  }

  /** The reference transcript of a non-empty conversation is its first turn's, then the rest's. */
  lemma ExchangeSplit(turns: seq<Turn>)
    requires turns != []
    ensures Exchange(turns) == Exchange([turns[0]]) + Exchange(turns[1..])
  {
    assert [turns[0]][1..] == [];
  }

  lemma AppendTwice(m: seq<Message>, e1: seq<Message>, e2: seq<Message>, e: seq<Message>)
    requires e == e1 + e2
    ensures (m + e1) + e2 == m + e
  {
  }

  /** Number of turns whose text is not all white space. */
  function AcceptedTurns(turns: seq<Turn>): nat
    decreases |turns|
  {
    if turns == [] then 0
    else (if AllWhitespace(turns[0].text) then 0 else 1) + AcceptedTurns(turns[1..])
  }

  /** Each accepted turn adds exactly two messages to the reference transcript. */
  lemma {:induction false} ExchangeLength(turns: seq<Turn>)
    ensures |Exchange(turns)| == 2 * AcceptedTurns(turns)
    decreases |turns|
  {
    if turns != [] {
      ExchangeLength(turns[1..]);
    }
  }

  /**
   * From the initial state, N accepted turns leave 1 + 2N messages: the
   * greeting, then one user and one assistant message per turn, with the
   * invariant intact.
   */
  lemma {:induction false} ConversationLength(turns: seq<Turn>)
    ensures var r := Converse(InitialState, turns);
      && |r.messages| == 1 + 2 * AcceptedTurns(turns)
      && r.messages[0] == Greeting
      && CompletedTurns(r) == AcceptedTurns(turns)
  {
    ExchangeLength(turns);
  }

  /** Every reachable idle state satisfies the transcript invariant. */
  lemma {:induction false} ConverseKeepsWellFormed(s: ChatState, turns: seq<Turn>)
    requires WellFormed(s) && !s.isLoading
    ensures WellFormed(Converse(s, turns))
    decreases |turns|
  {
    if turns != [] {
      var typed := Edit(s, turns[0].text);
      EditKeepsWellFormed(s, turns[0].text);
      if !SendDisabled(typed) {
        BeginKeepsWellFormed(typed);
        CompleteKeepsWellFormed(Begin(typed), turns[0].outcome);
      }
      ConverseKeepsWellFormed(TakeTurn(s, turns[0]), turns[1..]);
    }
  }
}
