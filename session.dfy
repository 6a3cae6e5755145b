/**
 * The per-session state: the append-only message log and the context map
 * filled by keyword capture, with the submission step that updates both.
 */
module Session {
  import opened Wrappers
  import opened Conversation
  import opened Completion

  const LocationKey: string := "location"
  const PromotionKey: string := "promotion"
  const Keywords: set<string> := {LocationKey, PromotionKey}

  /** ASCII lower-casing of one character. */
  function LowerChar(c: char): (d: char)
    ensures 'A' <= c <= 'Z' ==> d as int == c as int + 32
    ensures !('A' <= c <= 'Z') ==> d == c
    ensures !('A' <= d <= 'Z')
  {
    if 'A' <= c <= 'Z' then (c as int + 32) as char else c
  }

  /** `s.lower()`, over ASCII letters. */
  function Lower(s: string): (t: string)
    ensures |t| == |s|
    ensures forall i :: 0 <= i < |t| ==> !('A' <= t[i] <= 'Z')
    ensures forall i :: 0 <= i < |s| && !('A' <= s[i] <= 'Z') ==> t[i] == s[i]
    ensures forall i :: 0 <= i < |s| && 'A' <= s[i] <= 'Z' ==> t[i] as int == s[i] as int + 32
  {
    seq(|s|, i requires 0 <= i < |s| => LowerChar(s[i]))
  }

  /** Lower-casing twice is lower-casing once. */
  lemma LowerIdempotent(s: string)
    ensures Lower(Lower(s)) == Lower(s)
  {
  }

  /** Two strings that differ only in the case of their ASCII letters. */
  predicate SameUpToCase(a: string, b: string) {
    |a| == |b| && forall i :: 0 <= i < |a| ==> LowerChar(a[i]) == LowerChar(b[i])
  }

  /** Strings equal up to case lower-case to the same string. */
  lemma LowerIgnoresCase(a: string, b: string)
    requires SameUpToCase(a, b)
    ensures Lower(a) == Lower(b)
  {
  }

  /** Whether `sub` occurs in `s` starting at index `i`. */
  predicate OccursAt(s: string, sub: string, i: int) {
    0 <= i <= |s| - |sub| && s[i..i + |sub|] == sub
  }

  /** Python's `sub in s` on strings: the empty string is in every string, and no longer one is. */
  predicate Contains(s: string, sub: string)
    ensures Contains(s, sub) ==> |sub| <= |s|
    ensures sub == [] ==> Contains(s, sub)
    ensures s == sub ==> Contains(s, sub)
  {
    assert OccursAt(s, [], 0) && OccursAt(s, s, 0);
    exists i | 0 <= i <= |s| - |sub| :: OccursAt(s, sub, i)
  }

  /**
   * Whether `prompt` mentions keyword `k`, ignoring case: lower-casing the
   * prompt first changes nothing, and so does changing the case of any of
   * its letters.
   */
  predicate Mentions(prompt: string, k: string)
    ensures Mentions(prompt, k) <==> Contains(Lower(Lower(prompt)), k)
    ensures forall q :: SameUpToCase(prompt, q) ==> (Mentions(prompt, k) <==> Contains(Lower(q), k))
  {
    LowerIdempotent(prompt);
    forall q | SameUpToCase(prompt, q) ensures Lower(prompt) == Lower(q) {
      LowerIgnoresCase(prompt, q);
    }
    Contains(Lower(prompt), k)
  }

  /**
   * The context after capturing `prompt`: each keyword the prompt mentions
   * now maps to the raw prompt; every other key keeps its value.
   */
  function Capture(ctx: map<string, string>, prompt: string): (c: map<string, string>)
    ensures forall k :: k in c <==> k in ctx || (k in Keywords && Mentions(prompt, k))
    ensures forall k :: k in c ==> c[k] == if k in Keywords && Mentions(prompt, k) then prompt else ctx[k]
  {
    var afterLocation := if Mentions(prompt, LocationKey) then ctx[LocationKey := prompt] else ctx;
    if Mentions(prompt, PromotionKey) then afterLocation[PromotionKey := prompt] else afterLocation
  }

  /** Prompts that differ only in letter case capture under the same keys. */
  lemma CaptureIgnoresCase(ctx: map<string, string>, p: string, q: string)
    requires SameUpToCase(p, q)
    ensures Capture(ctx, p).Keys == Capture(ctx, q).Keys
  {
  }

  /** The log alternates user and assistant messages, starting with a user one. */
  predicate LogValid(messages: seq<Message>) {
    |messages| % 2 == 0 &&
    forall i :: 0 <= i < |messages| ==>
      messages[i].role == if i % 2 == 0 then UserRole else AssistantRole
  }

  /** Every captured value is a prompt that mentions its key. */
  predicate ContextValid(ctx: map<string, string>) {
    forall k :: k in ctx ==> k in Keywords && Mentions(ctx[k], k)
  }

  /** A submission keeps the log alternating. */
  lemma AppendTurnKeepsLog(messages: seq<Message>, prompt: string, reply: string)
    requires LogValid(messages)
    ensures LogValid(messages + [Message(UserRole, prompt), Message(AssistantRole, reply)])
  {
  }

  /** Capture keeps every value a prompt that mentions its key. */
  lemma CaptureKeepsContext(ctx: map<string, string>, prompt: string)
    requires ContextValid(ctx)
    ensures ContextValid(Capture(ctx, prompt))
  {
  }

  /** A string without the first character of `sub` does not contain `sub`. */
  lemma AbsentFirstChar(s: string, sub: string)
    requires |sub| > 0 && sub[0] !in s
    ensures !Contains(s, sub)
  {
  }

  lemma LocationPromptKeywords()
    ensures Mentions("My location is Berlin", LocationKey)
    ensures !Mentions("My location is Berlin", PromotionKey)
  {
    var p := "My location is Berlin";
    var l := Lower(p);
    assert forall i :: 0 <= i < |p| ==> l[i] == LowerChar(p[i]);
    assert l == "my location is berlin";
    assert forall i :: 0 <= i < |LocationKey| ==> l[3 + i] == LocationKey[i];
    assert l[3..11] == LocationKey;
    assert OccursAt(l, LocationKey, 3);
    AbsentFirstChar(l, PromotionKey);
  }

  lemma PromotionPromptKeywords()
    ensures Mentions("Any PROMOTION?", PromotionKey)
    ensures !Mentions("Any PROMOTION?", LocationKey)
  {
    var p := "Any PROMOTION?";
    var l := Lower(p);
    assert forall i :: 0 <= i < |p| ==> l[i] == LowerChar(p[i]);
    assert l == "any promotion?";
    assert forall i :: 0 <= i < |PromotionKey| ==> l[4 + i] == PromotionKey[i];
    assert l[4..13] == PromotionKey;
    assert OccursAt(l, PromotionKey, 4);
    AbsentFirstChar(l, LocationKey);
  }

  /**
   * Capturing one prompt and then another: the first sets "location"; the
   * second, matched regardless of case, adds "promotion" and leaves
   * "location" as it was.
   */
  lemma CaptureExample()
    ensures var first := Capture(map[], "My location is Berlin");
      var second := Capture(first, "Any PROMOTION?");
      first == map[LocationKey := "My location is Berlin"] &&
      second == map[LocationKey := "My location is Berlin", PromotionKey := "Any PROMOTION?"]
  {
    LocationPromptKeywords();
    PromotionPromptKeywords();
  }

  /** The session state held across reruns of the page. */
  class ChatSession {
    var messages: seq<Message>
    var context: map<string, string>

    ghost predicate Valid()
      reads this
    {
      LogValid(messages) && ContextValid(context)
    }

    /** A new session: empty log and empty context. */
    constructor ()
      ensures Valid() && messages == [] && context == map[]
    {
      messages := [];
      context := map[];
    }

    /**
     * Handles one submitted prompt: log it, capture keywords, ask the
     * endpoint with the default retry settings, and log the reply.
     * Returns the contents that were sent and the reply.
     */
    method Submit(prompt: string, server: Endpoint) returns (contents: seq<Entry>, reply: string)
      requires Valid()
      requires prompt != ""
      modifies this
      ensures Valid()
      ensures messages == old(messages) + [Message(UserRole, prompt), Message(AssistantRole, reply)]
      ensures context == Capture(old(context), prompt)
      ensures contents == Assemble(old(messages) + [Message(UserRole, prompt)], prompt)
      ensures Send(server, DefaultMaxRetries).reply == Some(reply)
    {
      ghost var before, ctx := messages, context;
      messages := messages + [Message(UserRole, prompt)];
      if Contains(Lower(prompt), LocationKey) {
        context := context[LocationKey := prompt];
      }
      if Contains(Lower(prompt), PromotionKey) {
        context := context[PromotionKey := prompt];
      }
      assert context == Capture(ctx, prompt);
      var response, attempts, sleeps;
      contents, response, attempts, sleeps :=
        GetResponse(messages, prompt, context, server, DefaultMaxRetries, DefaultRetryDelay);
      SendResultShape(server, DefaultMaxRetries);
      reply := response.value;
      AppendTurnKeepsLog(before, prompt, reply);
      CaptureKeepsContext(ctx, prompt);
      messages := messages + [Message(AssistantRole, reply)];
      assert messages == before + [Message(UserRole, prompt), Message(AssistantRole, reply)];
    }
  }
}
