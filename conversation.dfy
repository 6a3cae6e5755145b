/**
 * The session's message log and the request contents assembled from it:
 * the instruction entry, the priming entry, a trailing window of at most
 * ten messages with their roles relabelled, and the new question.
 */
module Conversation {

  /** A message of the session log, `{"role": ..., "content": ...}`. */
  datatype Message = Message(role: string, content: string)

  /** One entry of the outgoing `contents` list, `{"role": ..., "parts": [{"text": ...}]}`. */
  datatype Entry = Entry(role: string, text: string)

  const UserRole: string := "user"
  const AssistantRole: string := "assistant"
  const ModelRole: string := "model"

  /** How many trailing messages of the log are sent with a question. */
  const HistoryLimit: nat := 10

  /**
   * The system instruction. Its long product and policy text is a constant
   * that never depends on the input; only its opening sentence is kept here.
   */
  const SystemInstruction: string :=
    "You are GreenFuturz's custom chatbot, designed to act as a professional RFID consultant."

  const PrimingText: string := "Understood. I'm ready to assist with Greenfuturz information."

  const InstructionEntry: Entry := Entry(UserRole, SystemInstruction)
  const PrimingEntry: Entry := Entry(ModelRole, PrimingText)

  function Min(a: int, b: int): int { if a < b then a else b }

  /** The last `HistoryLimit` messages when there are more, otherwise all of them. */
  function Window(history: seq<Message>): (w: seq<Message>)
    ensures |w| == Min(HistoryLimit, |history|)
    ensures history == history[..|history| - |w|] + w
  {
    if |history| > HistoryLimit then history[|history| - HistoryLimit..] else history
  }

  /** The protocol's label for a log role: "model" for the assistant, "user" for anything else. */
  function ProtocolRole(role: string): (r: string)
    ensures r == ModelRole <==> role == AssistantRole
    ensures r != ModelRole ==> r == UserRole
  {
    if role == AssistantRole then ModelRole else UserRole
  }

  function ToEntry(m: Message): Entry {
    Entry(ProtocolRole(m.role), m.content)
  }

  /** The entries for `ms`, appended one by one in order. */
  function Entries(ms: seq<Message>): (es: seq<Entry>)
    ensures |es| == |ms|
  {
    if ms == [] then [] else Entries(ms[..|ms| - 1]) + [ToEntry(ms[|ms| - 1])]
  }

  /** The complete `contents` list sent with `question`. */
  function Assemble(history: seq<Message>, question: string): (c: seq<Entry>)
    ensures |c| == 3 + Min(HistoryLimit, |history|)
    ensures c[0] == InstructionEntry && c[1] == PrimingEntry
    ensures c[|c| - 1] == Entry(UserRole, question)
  {
    [InstructionEntry, PrimingEntry] + Entries(Window(history)) + [Entry(UserRole, question)]
  }

  /** Entry `i` is message `i`, relabelled, and there is one per message. */
  lemma {:induction false} EntriesAt(ms: seq<Message>)
    ensures |Entries(ms)| == |ms|
    ensures forall i :: 0 <= i < |ms| ==> Entries(ms)[i] == ToEntry(ms[i])
  {
    if ms != [] {
      EntriesAt(ms[..|ms| - 1]);
    }
  }

  /**
   * The shape of the assembled contents: two constant entries, then the
   * trailing window in order with each text unchanged and each role
   * relabelled, then the question as a user entry.
   */
  lemma AssembleShape(history: seq<Message>, question: string)
    ensures var c := Assemble(history, question);
      var w := Min(HistoryLimit, |history|);
      |c| == 2 + w + 1 &&
      c[0] == Entry(UserRole, SystemInstruction) &&
      c[1] == Entry(ModelRole, PrimingText) &&
      (forall j :: 2 <= j < 2 + w ==>
        c[j].text == history[|history| - w + (j - 2)].content &&
        (c[j].role == ModelRole <==> history[|history| - w + (j - 2)].role == AssistantRole) &&
        (c[j].role != ModelRole ==> c[j].role == UserRole)) &&
      c[|c| - 1] == Entry(UserRole, question)
  {
    var win := Window(history);
    var es := Entries(win);
    EntriesAt(win);
    var w := |win|;
    var c := Assemble(history, question);
    assert c == [InstructionEntry, PrimingEntry] + es + [Entry(UserRole, question)];
    assert forall j :: 2 <= j < 2 + w ==> c[j] == es[j - 2];
    forall j | 2 <= j < 2 + w
      ensures c[j] == ToEntry(history[|history| - w + (j - 2)])
    {
      assert history[|history| - w + (j - 2)] == (history[..|history| - w] + win)[|history| - w + (j - 2)];
    }
  }

  /**
   * When the caller has already logged the question as a user message, as
   * the submission step does, the question is both the last window entry
   * and the final entry.
   */
  lemma QuestionSentTwice(history: seq<Message>, question: string)
    ensures var c := Assemble(history + [Message(UserRole, question)], question);
      |c| >= 4 && c[|c| - 2] == Entry(UserRole, question) && c[|c| - 1] == Entry(UserRole, question)
  {
  }

  /**
   * Builds the request contents by successive appends, as the source does,
   * including one append per message of the trailing window.
   */
  method BuildContents(history: seq<Message>, question: string) returns (contents: seq<Entry>)
    ensures contents == Assemble(history, question)
  {
    contents := [];
    contents := contents + [Entry(UserRole, SystemInstruction)];
    contents := contents + [Entry(ModelRole, PrimingText)];
    var window := Window(history);
    for i := 0 to |window|
      invariant contents == [InstructionEntry, PrimingEntry] + Entries(window[..i])
    {
      var msg := window[i];
      var role := ProtocolRole(msg.role);
      assert window[..i + 1][..i] == window[..i];
      contents := contents + [Entry(role, msg.content)];
    }
    assert window[..|window|] == window;
    contents := contents + [Entry(UserRole, question)];
  }
}
