# Churn chatbot: the chat-turn state machine in Dafny

This project models the conversation core of the churn-prediction chat
front end (`ChurnChatbot`, `src/App.jsx`). The component holds a
transcript of `{role, content}` messages, the text-box contents `input`
and an `isLoading` flag. It starts from a single assistant greeting. A send
(button or Enter without Shift) runs `handleSend`:

- **Begin.** The send is rejected when the trimmed input is empty or a
  request is in flight. Otherwise the trimmed text is appended as a user
  message, the text box is cleared and `isLoading` is raised.
- **Complete.** The backend's reply becomes exactly one assistant message
  and `isLoading` drops. A success body shows its `response` verbatim. Any
  other status shows `❌ Error: ` followed by the body's `message`. A thrown
  error shows a fixed apology.

Files:

- `js_string.dfy`, module `JsString`: the white-space set of ECMAScript's
  `String.prototype.trim` (ECMA-262, "White Space" and "Line Terminators")
  and `Trim`. `Trim` is proved to return a slice of its input with only
  white space outside it and none at its ends. It is empty exactly when the
  input is all white space, it is the unique such slice, and it is idempotent.
- `chat_turn.dfy`, module `ChatTurn`: the state as a value (`ChatState`),
  each step as a function (`Edit`, `Begin`, `Complete`, `KeyPress`,
  `SendDisabled`) and the lemmas about them. It also defines the transcript
  invariant `WellFormed`: the greeting comes first, then user and assistant
  messages alternate, ending on a user message exactly while loading, and
  every user message is non-empty trimmed text. Whole conversations
  (`Converse`) are related to a reference transcript (`Exchange`).
- `chatbot.dfy`, module `ChurnChatbot`: the component as a class whose
  fields are updated in place by `OnInputChange`, `BeginSend`,
  `CompleteSend` and `HandleKeyPress`. Each method's postcondition ties the
  new state to the matching `ChatTurn` step and keeps `WellFormed`.

The network call (`fetch`, `response.json()`) is a parameter: the
`Outcome` passed to `CompleteSend`, one of `Success(response)`,
`AppError(message)` or `TransportError`. The `await` splits `handleSend`
into `BeginSend` and `CompleteSend`.

The component keeps no session identifier, sends only `{ message }` and has
no response formatter. The transcript starts with a greeting, so N accepted
turns leave 1 + 2N messages. The user message holds the trimmed input.

## Model

| member | source | states |
|---|---|---|
| JsString.IsWhitespace | src/App.jsx:24-26 | the code points `trim` strips: among ASCII exactly TAB, LF, VT, FF, CR and SP; NEL, ZERO WIDTH SPACE and MONGOLIAN VOWEL SEPARATOR are not stripped (properties of `Trim` built on it: `Trim`, `TrimUnique`, `TrimIdempotent`) |
| JsString.Trim | src/App.jsx:24-26 | `input.trim()`: a slice of the input with only white space outside it and no white space at its ends; empty iff the input is all white space |
| JsString.TrimUnique | src/App.jsx:24-26 | any slice with only white space outside it and none at its ends equals `Trim` of the input |
| JsString.TrimIdempotent | src/App.jsx:26 | trimming the already-trimmed user message changes nothing |
| ChatTurn.Edit | src/App.jsx:147 | typing sets `input` to the typed text and leaves the transcript and the flag alone |
| ChatTurn.Request | src/App.jsx:26-40 | a request goes out iff the input is not all white space and nothing is in flight; its `message` is the non-empty trimmed input, the same text as the appended user message |
| ChatTurn.Begin | src/App.jsx:24-31 | first phase of `handleSend`: the transcript only grows, by at most one message, earlier messages kept in order; the state is unchanged iff the input is all white space or a request is in flight (exact effect in `BeginRejected`, `BeginAccepted`; invariant in `BeginKeepsWellFormed`) |
| ChatTurn.BeginRejected | src/App.jsx:24 | with white-space-only input or a request in flight, Begin changes nothing |
| ChatTurn.BeginAccepted | src/App.jsx:26-31 | an accepted Begin appends exactly one user message holding the trimmed input, keeps earlier messages in order, clears `input` and raises `isLoading` |
| ChatTurn.ReplyContent | src/App.jsx:45-60 | the outcome-to-content mapping: every failure reply starts with the `❌ ` marker; an application error is `❌ Error: ` followed by the server message, which can be read back (verbatim success in `SuccessShownVerbatim`, distinctness in `FailureKindsDistinct`) |
| ChatTurn.Complete | src/App.jsx:45-63 | second phase of `handleSend`: appends exactly one assistant message with the outcome's content, keeps the prefix and `input`, and `isLoading` is false whatever the outcome (invariant in `CompleteKeepsWellFormed`) |
| ChatTurn.SuccessShownVerbatim | src/App.jsx:45-49 | a success reply is appended as the verbatim `response` |
| ChatTurn.FailureKindsDistinct | src/App.jsx:50-60 | no application error reads like the transport apology, and distinct server messages give distinct replies |
| ChatTurn.KeyPress | src/App.jsx:66-71 | Enter without Shift on sendable input appends the trimmed user message, clears the input and raises the flag; on unsendable input it changes nothing; Shift+Enter and every other key change nothing |
| ChatTurn.SendDisabled | src/App.jsx:157 | the button's `disabled`: set iff the input is all white space or a request is in flight (equivalence with a rejected Begin in `SendDisabledIffRejected`) |
| ChatTurn.SendDisabledIffRejected | src/App.jsx:157 | the button is disabled exactly when Begin (line 24) would be a no-op, i.e. when the input is all white space or a request is in flight |
| ChatTurn.InitialWellFormed | src/App.jsx:5-12 | the initial state (greeting only, empty input, not loading) satisfies the transcript invariant with zero completed turns |
| ChatTurn.WellFormedLength | src/App.jsx:5-10 | under the invariant the transcript has 1 + 2 × completed turns messages, plus one while loading |
| ChatTurn.EditKeepsWellFormed | src/App.jsx:147 | typing keeps the invariant and the turn count |
| ChatTurn.BeginKeepsWellFormed | src/App.jsx:24-31 | Begin keeps the invariant (the new user message is non-empty and trimmed) and completes no turn |
| ChatTurn.CompleteKeepsWellFormed | src/App.jsx:45-63 | Complete keeps the invariant and completes exactly one turn |
| ChatTurn.TakeTurn | src/App.jsx:23-64 | a turn taken while idle (type, send, await) ends idle and appends exactly the reference transcript of that turn: nothing for white-space text, else the trimmed text then its reply |
| ChatTurn.Converse | src/App.jsx:23-64 | a sequence of awaited turns ends idle, only appends, and appends exactly trimmed user text then its reply for each accepted turn, in submission order |
| ChatTurn.ExchangeLength | src/App.jsx:30-59 | each accepted turn contributes exactly two messages |
| ChatTurn.ConversationLength | src/App.jsx:5-64 | from the initial state, N accepted turns leave 1 + 2N messages, the greeting first |
| ChatTurn.ConverseKeepsWellFormed | src/App.jsx:5-64 | every state reached by awaited turns satisfies the transcript invariant |
| ChurnChatbot.Chatbot.constructor | src/App.jsx:5-12 | the component starts with the greeting alone, empty input, not loading, invariant established |
| ChurnChatbot.Chatbot.OnInputChange | src/App.jsx:147 | sets `input`, nothing else, invariant kept |
| ChurnChatbot.Chatbot.BeginSend | src/App.jsx:23-31 | updates the fields as Begin does; returns the request text, None iff rejected (input all white space or loading) |
| ChurnChatbot.Chatbot.CompleteSend | src/App.jsx:45-63 | appends the outcome's assistant message, drops `isLoading`, completes one turn, invariant kept |
| ChurnChatbot.Chatbot.HandleKeyPress | src/App.jsx:66-71 | prevents the default action and starts a send iff the key is Enter without Shift; otherwise nothing changes |
| ChurnChatbot.Chatbot.IsSendDisabled | src/App.jsx:157 | disabled iff the input is all white space or a request is in flight, iff pressing send would change nothing |

## Left out

- The `fetch` request itself: URL, method, headers and JSON encoding (src/App.jsx:35-43). The outcome of the call is a parameter of `CompleteSend`.
- How the body maps onto `Outcome`: a body whose `status` is "success" but has no string `response`, or a failure body with no `message` (JavaScript would show `undefined`), is not distinguished. The caller passes the text the component would display.
- `async`/`await` scheduling and React's batching of state updates. The two phases are two sequential methods, and the handler's view of `isLoading` is the current field value, not a value captured at render time.
- Auto-scrolling (`scrollToBottom`, `useRef`, `useEffect`), all JSX rendering and styling, and the textarea's own `disabled={isLoading}` (src/App.jsx:152). `OnInputChange` may therefore be called while loading.
- Whether a JavaScript string is UTF-16 code units: strings are sequences of Unicode code points here. The Space_Separator set is the one of current Unicode.
