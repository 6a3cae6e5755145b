/**
 * The call to the generation endpoint with bounded retry. The endpoint is
 * given as the outcome of each successive attempt, and sleeping is recorded
 * as a log of the delays slept.
 */
module Completion {
  import opened Wrappers
  import opened Conversation

  /** The body of a 200 response: no usable candidates list, or the candidates' texts. */
  datatype Body = NoCandidates | Candidates(texts: seq<string>)

  /** What one POST produced: an HTTP response, or a transport-level exception. */
  datatype Attempt = Response(status: int, body: Body) | TransportError

  /** The endpoint: the outcome of the attempt with the given 0-based index. */
  type Endpoint = nat -> Attempt

  datatype FailureKind = BadStatus | Transport

  /** How one attempt ends the loop, or why it asks for another. */
  datatype Verdict = Final(text: string) | Failed(kind: FailureKind)

  const DefaultMaxRetries: int := 3
  const DefaultRetryDelay: int := 2

  const ClarifyText: string :=
    "I'm unable to generate a specific response at the moment. Could you please clarify your question?"
  const TroubleText: string :=
    "I'm having trouble connecting to the service. Please try again later."
  const TechnicalText: string :=
    "I'm currently unable to process your request due to a technical issue. Please try again later."

  /** Classifies one attempt: a 200 always ends the loop, anything else is a failure of its kind. */
  function Judge(a: Attempt): (v: Verdict)
    ensures v.Final? <==> a.Response? && a.status == 200
    ensures v.Final? && a.body.Candidates? && |a.body.texts| > 0 ==> v.text == a.body.texts[0]
    ensures v.Final? && !(a.body.Candidates? && |a.body.texts| > 0) ==> v.text == ClarifyText
    ensures v.Failed? ==> (v.kind == Transport <==> a.TransportError?)
  {
    match a
    case Response(status, body) =>
      if status == 200 then
        if body.Candidates? && |body.texts| > 0 then Final(body.texts[0]) else Final(ClarifyText)
      else Failed(BadStatus)
    case TransportError => Failed(Transport)
  }

  /** The fallback reply when the last attempt failed. */
  function Fallback(kind: FailureKind): (text: string)
    ensures text == TroubleText <==> kind == BadStatus
    ensures text == TechnicalText <==> kind == Transport
    ensures text != ClarifyText
  {
    match kind
    case BadStatus => TroubleText
    case Transport => TechnicalText
  }

  /** The reply (None when no attempt was made) and the number of attempts made. */
  datatype SendResult = SendResult(reply: Option<string>, attempts: nat)

  /** The retry state machine, entered in state ATTEMPTING(attempt + 1). */
  function RunFrom(server: Endpoint, maxRetries: int, attempt: nat): (r: SendResult)
    ensures r.reply == None <==> attempt >= maxRetries
    ensures attempt < maxRetries ==> attempt < r.attempts <= maxRetries
    ensures attempt >= maxRetries ==> r.attempts == attempt
    decreases maxRetries - attempt
  {
    if attempt >= maxRetries then SendResult(None, attempt)
    else match Judge(server(attempt))
      case Final(text) => SendResult(Some(text), attempt + 1)
      case Failed(kind) =>
        if attempt < maxRetries - 1 then RunFrom(server, maxRetries, attempt + 1)
        else SendResult(Some(Fallback(kind)), attempt + 1)
  }

  /** The whole call: entered in state ATTEMPTING(1). */
  function Send(server: Endpoint, maxRetries: int): (r: SendResult)
    ensures r.reply == None <==> maxRetries <= 0
    ensures r.attempts <= if maxRetries <= 0 then 0 else maxRetries
  {
    RunFrom(server, maxRetries, 0)
  }

  /** True when every attempt before `n` failed. */
  ghost predicate FailedBefore(server: Endpoint, n: nat) {
    forall i: nat :: i < n ==> Judge(server(i)).Failed?
  }

  lemma {:induction false} RunFromResult(server: Endpoint, maxRetries: int, attempt: nat)
    requires attempt < maxRetries
    ensures var r := RunFrom(server, maxRetries, attempt);
      attempt < r.attempts <= maxRetries && r.reply.Some? &&
      (forall i: nat :: attempt <= i < r.attempts - 1 ==> Judge(server(i)).Failed?) &&
      match Judge(server(r.attempts - 1))
      case Final(text) => r.reply == Some(text)
      case Failed(kind) => r.attempts == maxRetries && r.reply == Some(Fallback(kind))
    decreases maxRetries - attempt
  {
    if Judge(server(attempt)).Failed? && attempt < maxRetries - 1 {
      RunFromResult(server, maxRetries, attempt + 1);
    }
  }

  /** With no retries allowed the loop body never runs: no attempt, no reply. */
  lemma SendWithoutRetries(server: Endpoint, maxRetries: int)
    requires maxRetries <= 0
    ensures Send(server, maxRetries) == SendResult(None, 0)
  {
  }

  /**
   * Otherwise there are between one and `maxRetries` attempts, all but the
   * last failed, and the last one decides the reply: a 200 gives its text
   * (or the clarification), and a failure can only be last when the
   * attempts ran out, its kind picking the fallback.
   */
  lemma SendResultShape(server: Endpoint, maxRetries: int)
    requires maxRetries > 0
    ensures var r := Send(server, maxRetries);
      1 <= r.attempts <= maxRetries && r.reply.Some? &&
      FailedBefore(server, r.attempts - 1) &&
      match Judge(server(r.attempts - 1))
      case Final(text) => r.reply == Some(text)
      case Failed(kind) => r.attempts == maxRetries && r.reply == Some(Fallback(kind))
  {
    RunFromResult(server, maxRetries, 0);
  }

  /** The first 200 among the allowed attempts ends the call right there. */
  lemma FirstFinalStops(server: Endpoint, maxRetries: int, k: nat)
    requires k < maxRetries
    requires FailedBefore(server, k) && Judge(server(k)).Final?
    ensures Send(server, maxRetries) == SendResult(Some(Judge(server(k)).text), k + 1)
  {
    SendResultShape(server, maxRetries);
  }

  /** When every allowed attempt fails, all are made and the last one's kind picks the fallback. */
  lemma AllFailedExhausts(server: Endpoint, maxRetries: int)
    requires maxRetries > 0 && FailedBefore(server, maxRetries)
    ensures Send(server, maxRetries) ==
      SendResult(Some(Fallback(Judge(server(maxRetries - 1)).kind)), maxRetries)
  {
    SendResultShape(server, maxRetries);
  }

  /** A 200 with a candidate: its text, after one attempt. */
  lemma ValidCandidateScenario(text: string, rest: seq<string>)
    ensures Send((i: nat) => Response(200, Candidates([text] + rest)), DefaultMaxRetries)
      == SendResult(Some(text), 1)
  {
  }

  /** A 200 with an empty candidates list: the clarification, after one attempt. */
  lemma EmptyCandidatesScenario()
    ensures Send((i: nat) => Response(200, Candidates([])), DefaultMaxRetries)
      == SendResult(Some(ClarifyText), 1)
  {
  }

  /** Three 500s with three retries allowed: three attempts and the service-trouble text. */
  lemma ServerErrorScenario()
    ensures Send((i: nat) => Response(500, NoCandidates), DefaultMaxRetries)
      == SendResult(Some(TroubleText), 3)
  {
  }

  /** A transport error after two 503s: the last failure decides, so the technical-issue text. */
  lemma LastFailureDecidesScenario()
    ensures Send((i: nat) => if i < 2 then Response(503, NoCandidates) else TransportError, DefaultMaxRetries)
      == SendResult(Some(TechnicalText), 3)
  {
  }

  /**
   * The retry loop: up to `maxRetries` POSTs, returning on the first 200 and
   * sleeping `retryDelay` before each further attempt.
   */
  method SendWithRetry(server: Endpoint, maxRetries: int, retryDelay: nat)
    returns (reply: Option<string>, attempts: nat, sleeps: seq<nat>)
    ensures SendResult(reply, attempts) == Send(server, maxRetries)
    ensures |sleeps| == if attempts == 0 then 0 else attempts - 1
    ensures forall i :: 0 <= i < |sleeps| ==> sleeps[i] == retryDelay
  {
    reply, attempts, sleeps := None, 0, [];
    var attempt: nat := 0;
    while attempt < maxRetries
      invariant attempt == 0 || attempt < maxRetries
      invariant attempts == attempt && |sleeps| == attempt && reply == None
      invariant forall i :: 0 <= i < |sleeps| ==> sleeps[i] == retryDelay
      invariant RunFrom(server, maxRetries, attempt) == Send(server, maxRetries)
      decreases maxRetries - attempt
    {
      var response := server(attempt);
      attempts := attempts + 1;
      match response {
        case Response(status, body) =>
          if status == 200 {
            if body.Candidates? && |body.texts| > 0 {
              reply := Some(body.texts[0]);
              return;
            } else {
              reply := Some(ClarifyText);
              return;
            }
          } else {
            if attempt < maxRetries - 1 {
              sleeps := sleeps + [retryDelay];
              attempt := attempt + 1;
              continue;
            } else {
              reply := Some(TroubleText);
              return;
            }
          }
        case TransportError =>
          if attempt < maxRetries - 1 {
            sleeps := sleeps + [retryDelay];
            attempt := attempt + 1;
            continue;
          } else {
            reply := Some(TechnicalText);
            return;
          }
      }
    }
  }

  /**
   * One call of the assistant: assemble the contents from the log and the
   * question, then send them. The context map is taken but never read.
   */
  method GetResponse(history: seq<Message>, question: string, context: map<string, string>,
                     server: Endpoint, maxRetries: int, retryDelay: nat)
    returns (contents: seq<Entry>, reply: Option<string>, attempts: nat, sleeps: seq<nat>)
    ensures contents == Assemble(history, question)
    ensures SendResult(reply, attempts) == Send(server, maxRetries)
    ensures |sleeps| == if attempts == 0 then 0 else attempts - 1
    ensures forall i :: 0 <= i < |sleeps| ==> sleeps[i] == retryDelay
  {
    contents := BuildContents(history, question);
    reply, attempts, sleeps := SendWithRetry(server, maxRetries, retryDelay);
  }
}
