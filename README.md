# GreenFuturz chat assistant: request assembly, retry and session step

This project models the three pieces of sequential logic in the chat
assistant's `app.py` and proves what they do:

- **Request contents assembly** (`get_zai_fi_response`, first half). The
  list sent to the generation endpoint is an instruction entry with role
  `"user"`, a priming acknowledgment with role `"model"`, the last
  `min(10, n)` messages of the session log with `"assistant"` relabelled
  `"model"` and every other role relabelled `"user"`, and the question as
  a `"user"` entry. Module `Conversation`: `Window` and `ProtocolRole` are
  the two pure expressions of the source, `Assemble` is the specification
  of the list, and `BuildContents` is the append loop proved against it.
- **Bounded retry** (`get_zai_fi_response`, second half). The HTTP
  endpoint is a parameter `server: nat -> Attempt` giving the outcome of
  each successive POST: a response with a status and a body (no usable
  candidates, or the candidates' texts), or a transport exception.
  Sleeping is recorded as a log of the delays slept. Module `Completion`:
  `Send` is the retry state machine as a function, `SendWithRetry` is the
  loop with its early returns, proved equal to it, and the lemmas state
  first-terminal-outcome return, no retry on a 200, at most `max_retries`
  attempts, and the last failure picking the fallback.
- **Session submission step** (the prompt branch of `main`). Class
  `Session.ChatSession` holds the `messages` log and the `context` map.
  `Submit` appends the user turn, captures the prompt under each keyword
  (`"location"`, `"promotion"`) its lower-cased form contains, assembles
  and sends with the default three attempts and two-second delay, and
  appends the reply. The user turn is logged before assembly, so the
  question is sent twice: as the last window entry and as the final entry
  (`Conversation.QuestionSentTwice`).

`ChatSession.Valid()` states two invariants of the session: the log
alternates user and assistant messages, starting with a user one, and
every captured context value is a prompt that mentions its own keyword.
The constructor establishes them and `Submit` keeps them. No other
contract depends on them.

The `context` argument of `get_zai_fi_response` is never read:
`Completion.GetResponse` takes it, and nothing in its contract depends on it.

Files: `wrappers.dfy` (Option), `conversation.dfy`, `completion.dfy`,
`session.dfy`.

## Model

| member | source | states |
|---|---|---|
| Conversation.Window | app.py:232 | the window has length min(10, n) and is a suffix of the log: the log is some prefix followed by the window |
| Conversation.ProtocolRole | app.py:234 | the protocol role is "model" exactly when the log role is "assistant", and "user" otherwise |
| Conversation.EntriesAt | app.py:233-238 | the per-message entries have one entry per message, in order, entry i being message i with its text unchanged and its role relabelled |
| Conversation.AssembleShape | app.py:218-244 | the contents have length 2 + min(10, n) + 1; entry 0 is the constant instruction with role "user", entry 1 the constant priming text with role "model"; entries 2.. are the last min(10, n) messages in order, text unchanged, role "model" iff the message role is "assistant" and "user" otherwise; the last entry is the question with role "user" |
| Conversation.Entries | app.py:233-238 | the loop appends exactly one entry per message of the window |
| Conversation.Assemble | app.py:218-244 | the contents have 2 + min(10, n) + 1 entries, start with the constant instruction and priming entries, and end with the question as a user entry |
| Conversation.QuestionSentTwice | app.py:241-244 | when the question has just been logged as a user message, the second-to-last and the last entries are both the question with role "user" |
| Conversation.BuildContents | app.py:218-244 | the list built by the successive appends, including the loop over the window, is exactly the assembled contents |
| Completion.Judge | app.py:260-283 | an attempt ends the loop exactly when it is a response with status 200; its text is the first candidate's when there is one and the clarification text otherwise; a failure is of the transport kind exactly when the POST raised |
| Completion.Fallback | app.py:269-283 | the "trouble connecting" text is chosen exactly for a non-200 failure, the "technical issue" text exactly for a transport failure, and neither is the clarification text |
| Completion.RunFrom | app.py:254-283 | entered at an attempt below the bound, the loop returns a reply after more attempts but at most max_retries; entered at or past the bound, it makes no attempt and returns None |
| Completion.Send | app.py:254-283 | the call returns None exactly when max_retries <= 0, and never makes more than max_retries attempts |
| Completion.RunFromResult | app.py:254-283 | entered at any attempt below the bound, the loop makes a further one to the bound of attempts, all but its last one failed, and the last decides the reply |
| Completion.SendWithoutRetries | app.py:254 | when max_retries <= 0 no attempt is made and the result is None |
| Completion.SendResultShape | app.py:254-283 | when max_retries > 0 there are between 1 and max_retries attempts, every attempt before the last failed, a last 200 gives its reply text, and a last failure happens only when all max_retries attempts were made, the fallback being "trouble connecting" for a non-200 and "technical issue" for a transport error |
| Completion.FirstFinalStops | app.py:260-268 | if the first 200 among the allowed attempts is attempt k, the call makes exactly k + 1 attempts and returns that 200's text; a 200 with no candidates is not retried |
| Completion.AllFailedExhausts | app.py:269-283 | when every allowed attempt fails, all max_retries are made and the kind of the last failure selects the fallback string |
| Completion.ValidCandidateScenario | app.py:262-265 | a 200 whose candidates list starts with a text returns that text after one attempt |
| Completion.EmptyCandidatesScenario | app.py:266-268 | a 200 with an empty candidates list returns the clarification text after one attempt |
| Completion.ServerErrorScenario | app.py:269-275 | three 500 responses with three attempts allowed give three attempts and the service-trouble text |
| Completion.LastFailureDecidesScenario | app.py:277-283 | two 503 responses followed by a transport error give three attempts and the technical-issue text |
| Completion.SendWithRetry | app.py:254-283 | the loop's reply and attempt count are those of the retry state machine; it sleeps attempts - 1 times, each time for retry_delay |
| Completion.GetResponse | app.py:27-283 | the contents sent are the assembled contents of the log and the question, and the reply, attempts and sleeps are those of the retry loop, none depending on the context argument |
| Session.LowerChar | app.py:483 | ASCII upper-case letters are shifted to lower case, every other character is kept, and the result is never an upper-case letter |
| Session.Lower | app.py:483 | lower-casing keeps the length, leaves no upper-case ASCII letter, keeps every character that is not one, and shifts each upper-case letter to its lower-case form |
| Session.LowerIdempotent | app.py:483-485 | lower-casing an already lower-cased string changes nothing |
| Session.LowerIgnoresCase | app.py:483-485 | two strings that differ only in letter case lower-case to the same string |
| Session.Contains | app.py:483-485 | the substring test: a contained string is never longer, the empty string is in every string, and every string contains itself |
| Session.Mentions | app.py:483-485 | the keyword test ignores case: it gives the same answer on the lower-cased prompt and on any prompt that differs only in letter case |
| Session.Capture | app.py:483-486 | a key is in the new context iff it was before or it is a keyword the lower-cased prompt contains; each such keyword maps to the raw prompt and every other key keeps its value |
| Session.CaptureKeepsContext | app.py:483-486 | capture keeps the invariant that every captured value is a prompt mentioning its own keyword |
| Session.CaptureIgnoresCase | app.py:483-486 | prompts that differ only in letter case set the same context keys |
| Session.AppendTurnKeepsLog | app.py:480-500 | appending a user turn and then an assistant turn keeps the log alternating user, assistant, starting with user |
| Session.CaptureExample | app.py:483-486 | "My location is Berlin" captures only "location"; a later "Any PROMOTION?" adds "promotion", matched regardless of case, and leaves "location" unchanged |
| Session.ChatSession.constructor | app.py:459-460 | a new session starts with an empty log and an empty context (the context is initialised at app.py:419-420) |
| Session.ChatSession.Submit | app.py:478-500 | the log grows by exactly the user turn and the reply, earlier messages unchanged; the context becomes the capture of the prompt; the contents sent are those assembled from the log with the user turn already appended; the reply is the retry loop's reply with three attempts allowed |

## Left out

- The HTTP POST itself, the URL and key, the headers, the 30-second timeout, JSON decoding and logging: the endpoint is the `server` parameter giving each attempt's outcome. A JSON decoding error on a 200, which the requests library raises as a request exception, is therefore not a separate case; it is one of the transport errors the parameter can produce.
- The uncaught error when a candidate lacks `content.parts[0].text`: a candidate is modelled as its text.
- A response body that is falsy, lacks a `"candidates"` key, or has an empty list: the first two are the `NoCandidates` body, the third `Candidates([])`; all three give the clarification text.
- The generation configuration (temperature 0.7, top_p 0.95, top_k 40, max_output_tokens 250): constant floating-point parameters of the payload with no effect on the logic.
- The system instruction's product and policy text: it is one opaque constant, of which only the opening sentence is kept.
- Wall-clock sleeping: only the delays slept are recorded.
- Unicode case folding: `lower()` is modelled as ASCII lower-casing.
- Completion.SendWithRetry: the delay is a natural number, because `time.sleep` raises an uncaught error on a negative delay and the only caller (app.py:494) passes the default of 2; Completion.GetResponse takes it with the same type.
- Session.ChatSession.Submit: requires a non-empty prompt, because the branch at app.py:478 is entered only for a truthy prompt; a rerun without input does nothing.
- Image resizing and base64 encoding of the logos (image and file libraries), and all page rendering: CSS, menu hiding, header markup, message bubbles and the loading spinner.
