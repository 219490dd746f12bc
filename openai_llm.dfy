/**
 * The OpenAI-style LLM client. It sends the system prompt, the optional
 * retrieved context and the user's message; it turns every HTTP outcome into
 * a reply under the configured model id; and it reads the generated text out
 * of the vendor's response with a fixed order of places to look. The HTTP
 * exchange itself is a parameter: a function from the request to its outcome.
 */
module OpenAiLlm {
  import opened Wrappers
  import opened Strings
  import opened LlmClient

  // ---------------------------------------------------------------------------
  // Response bodies
  // ---------------------------------------------------------------------------

  /** A decoded JSON value: a Map, a List, a String, an integral Number, a Boolean or null. */
  datatype Json =
    | JNull
    | JBool(b: bool)
    | JInt(n: int)
    | JString(s: string)
    | JArray(items: seq<Json>)
    | JObject(members: seq<Member>)

  /** One entry of a decoded object, in document order. */
  datatype Member = Member(key: string, value: Json)

  /**
   * `map.get(key)`: the value of the last entry with that key, since a later
   * entry replaces an earlier one; null when there is none or it is JSON null.
   */
  function Get(members: seq<Member>, key: string): (r: Option<Json>)
    ensures r.Some? ==> r.value != JNull && Member(key, r.value) in members
    ensures (forall i :: 0 <= i < |members| ==> members[i].key != key) ==> r.None?
    decreases |members|
  {
    if members == [] then None
    else
      var last := members[|members| - 1];
      if last.key == key then (if last.value.JNull? then None else Some(last.value))
      else Get(members[..|members| - 1], key)
  }

  /** No entry after index `i` has the key. */
  predicate LastWithKey(members: seq<Member>, key: string, i: nat) {
    forall j :: i < j < |members| ==> members[j].key != key
  }

  /** The lookup reads the last entry with the key: its value, or nothing when that value is JSON null. */
  lemma {:induction false} GetReadsLastEntry(members: seq<Member>, key: string, i: nat)
    requires i < |members| && members[i].key == key && LastWithKey(members, key, i)
    ensures Get(members, key) == if members[i].value.JNull? then None else Some(members[i].value)
    decreases |members|
  {
    var n := |members| - 1;
    if i < n {
      var init := members[..n];
      assert members[n].key != key;
      assert init[i] == members[i];
      assert LastWithKey(init, key, i) by {
        forall j | i < j < |init| ensures init[j].key != key {
          assert init[j] == members[j];
        }
      }
      GetReadsLastEntry(init, key, i);
    }
  }

  /** The last index below `n` whose entry has the key, if any. */
  function FindLast(members: seq<Member>, key: string, n: nat): (r: Option<nat>)
    requires n <= |members|
    ensures r.Some? ==> r.value < n && members[r.value].key == key
    ensures r.Some? ==> forall j :: r.value < j < n ==> members[j].key != key
    ensures r.None? ==> forall j :: 0 <= j < n ==> members[j].key != key
    decreases n
  {
    if n == 0 then None
    else if members[n - 1].key == key then Some(n - 1)
    else FindLast(members, key, n - 1)
  }

  /** The indices below `n` of the entries whose key no earlier entry has, ascending. */
  function FirstIndices(members: seq<Member>, n: nat): (r: seq<nat>)
    requires n <= |members|
    ensures forall p :: 0 <= p < |r| ==> r[p] < n
    decreases n
  {
    if n == 0 then []
    else FirstIndices(members, n - 1) + if FindLast(members, members[n - 1].key, n - 1).None? then [n - 1] else []
  }

  /**
   * Java's `toString()` of the decoded value: maps as `{k=v, ...}`, lists as
   * `[a, b]`, strings unquoted. A decoded object is a LinkedHashMap, so a
   * repeated key is printed once, at its first position, with the value of
   * its last entry.
   */
  function Render(j: Json): (r: string)
    ensures j.JArray? ==> |r| >= 2 && r[0] == '[' && r[|r| - 1] == ']'
    ensures j.JObject? ==> |r| >= 2 && r[0] == '{' && r[|r| - 1] == '}'
    decreases j
  {
    match j
    case JNull => "null"
    case JBool(b) => if b then "true" else "false"
    case JInt(n) => IntToDecimal(n)
    case JString(s) => s
    case JArray(items) =>
      "[" + Join(seq(|items|, i requires 0 <= i < |items| => Render(items[i])), ", ") + "]"
    case JObject(members) =>
      var firsts := FirstIndices(members, |members|);
      "{" + Join(seq(|firsts|, p requires 0 <= p < |firsts| =>
                   var key := members[firsts[p]].key;
                   var last := FindLast(members, key, |members|);
                   key + "=" + (if last.Some? then Render(members[last.value].value) else "null")), ", ") + "}"
  }

  /** No two entries share a key. */
  predicate DistinctKeys(members: seq<Member>) {
    forall i, j :: 0 <= i < j < |members| ==> members[i].key != members[j].key
  }

  /** Without repeated keys every entry is printed, in document order. */
  lemma RenderDistinctKeys(members: seq<Member>)
    requires DistinctKeys(members)
    ensures Render(JObject(members))
      == "{" + Join(seq(|members|, i requires 0 <= i < |members| => members[i].key + "=" + Render(members[i].value)), ", ") + "}"
  {
    var firsts := FirstIndices(members, |members|);
    FirstIndicesAll(members, |members|);
    var printed := seq(|firsts|, p requires 0 <= p < |firsts| =>
                     var key := members[firsts[p]].key;
                     var last := FindLast(members, key, |members|);
                     key + "=" + (if last.Some? then Render(members[last.value].value) else "null"));
    var entries := seq(|members|, i requires 0 <= i < |members| => members[i].key + "=" + Render(members[i].value));
    assert Render(JObject(members)) == "{" + Join(printed, ", ") + "}";
    forall i | 0 <= i < |members| ensures printed[i] == entries[i] {
      assert firsts[i] == i;
      FindLastOfDistinct(members, i);
    }
    assert printed == entries;
  }

  /** Without repeated keys the last entry with an entry's key is that entry. */
  lemma FindLastOfDistinct(members: seq<Member>, i: nat)
    requires DistinctKeys(members) && i < |members|
    ensures FindLast(members, members[i].key, |members|) == Some(i)
  {
    var r := FindLast(members, members[i].key, |members|);
    assert r.Some?;
  }

  /** Without repeated keys every index is a first occurrence. */
  lemma {:induction false} FirstIndicesAll(members: seq<Member>, n: nat)
    requires DistinctKeys(members) && n <= |members|
    ensures FirstIndices(members, n) == seq(n, i requires 0 <= i < n => i)
    decreases n
  {
    if n > 0 {
      FirstIndicesAll(members, n - 1);
      assert FindLast(members, members[n - 1].key, n - 1).None?;
    }
  }

  /** A repeated key is printed once, with the value of its last entry. */
  lemma RenderRepeatedKey()
    ensures Render(JObject([Member("a", JString("x")), Member("a", JString("y"))])) == "{a=y}"
  {
    var members := [Member("a", JString("x")), Member("a", JString("y"))];
    assert FindLast(members, "a", 0) == None;
    assert FindLast(members, "a", 1) == Some(0);
    assert FirstIndices(members, 2) == [0];
    assert FindLast(members, "a", 2) == Some(1);
  }

  const ParseFailureText := "LLM: could not parse response"

  /**
   * The text found under `choices`: `choices[0].message.content`, else
   * `choices[0].text` when the first choice is an object, or the first choice
   * itself when it is a string.
   */
  function ChoicesText(body: seq<Member>): (r: Option<string>)
    ensures r.Some? ==> var c := Get(body, "choices"); c.Some? && c.value.JArray? && |c.value.items| > 0
  {
    match Get(body, "choices")
    case Some(JArray(choices)) =>
      if |choices| == 0 then None
      else if choices[0].JObject? then
        var first := choices[0].members;
        var message := Get(first, "message");
        var content := if message.Some? && message.value.JObject? then Get(message.value.members, "content") else None;
        if content.Some? then Some(Render(content.value))
        else if Get(first, "text").Some? then Some(Render(Get(first, "text").value))
        else None
      else if choices[0].JString? then Some(choices[0].s)
      else None
    case _ => None
  }

  /** The fallback: the top-level `text`, then `content`, then a fixed text. */
  function TopLevelText(body: seq<Member>): (r: string)
    ensures Get(body, "text").Some? ==> r == Render(Get(body, "text").value)
    ensures Get(body, "text").None? && Get(body, "content").None? ==> r == ParseFailureText
  {
    if Get(body, "text").Some? then Render(Get(body, "text").value)
    else if Get(body, "content").Some? then Render(Get(body, "content").value)
    else ParseFailureText
  }

  /** `parseGeneratedText`: what is found under `choices`, else the fallback. */
  function ParseGeneratedText(body: seq<Member>): (r: string)
    ensures ChoicesText(body).Some? ==> r == ChoicesText(body).value
    ensures Get(body, "choices").None? ==> r == TopLevelText(body)
  {
    var fromChoices := ChoicesText(body);
    if fromChoices.Some? then fromChoices.value else TopLevelText(body)
  }

  // ---------------------------------------------------------------------------
  // The parser as a table of places to look
  // ---------------------------------------------------------------------------

  /** One step into a value: an object's entry, or a list's first element. */
  datatype PathStep = Key(name: string) | FirstElement

  /** A path into a value, step by step. */
  datatype Path = End | Then(step: PathStep, rest: Path)

  /** The non-null value at the end of the path, if the path leads anywhere. */
  function At(j: Json, path: Path): Option<Json> {
    match path
    case End => if j.JNull? then None else Some(j)
    case Then(Key(name), rest) =>
      if j.JObject? && Get(j.members, name).Some? then At(Get(j.members, name).value, rest) else None
    case Then(FirstElement, rest) =>
      if j.JArray? && |j.items| > 0 then At(j.items[0], rest) else None
  }

  /** A place to look, and whether only a string is accepted there. */
  datatype Candidate = Candidate(path: Path, stringOnly: bool)

  /** The places the parser looks, in order of preference. */
  const Candidates: seq<Candidate> := [
    Candidate(Then(Key("choices"), Then(FirstElement, Then(Key("message"), Then(Key("content"), End)))), false),
    Candidate(Then(Key("choices"), Then(FirstElement, Then(Key("text"), End))), false),
    Candidate(Then(Key("choices"), Then(FirstElement, End)), true),
    Candidate(Then(Key("text"), End), false),
    Candidate(Then(Key("content"), End), false)
  ]

  /** The text at the first candidate from index `i` on that holds an acceptable value, else the fixed text. */
  function FirstUsable(body: Json, cs: seq<Candidate>, i: nat): string
    requires i <= |cs|
    decreases |cs| - i
  {
    if i == |cs| then ParseFailureText
    else
      match At(body, cs[i].path)
      case Some(v) =>
        if !cs[i].stringOnly then Render(v)
        else if v.JString? then v.s
        else FirstUsable(body, cs, i + 1)
      case None => FirstUsable(body, cs, i + 1)
  }

  /** The last two candidates are the parser's top-level fallback. */
  lemma TopLevelFollowsCandidates(body: seq<Member>)
    ensures FirstUsable(JObject(body), Candidates, 3) == TopLevelText(body)
  {
    var b := JObject(body);
    assert FirstUsable(b, Candidates, 5) == ParseFailureText;
    assert At(b, Candidates[4].path) == Get(body, "content");
    assert At(b, Candidates[3].path) == Get(body, "text");
  }

  /** The first three candidates are the parser's look into `choices`. */
  lemma ChoicesFollowCandidates(body: seq<Member>)
    ensures FirstUsable(JObject(body), Candidates, 0)
      == if ChoicesText(body).Some? then ChoicesText(body).value else FirstUsable(JObject(body), Candidates, 3)
  {
    var b := JObject(body);
    var c := Get(body, "choices");
    if c.Some? && c.value.JArray? && |c.value.items| > 0 {
      var first := c.value.items[0];
      assert At(b, Candidates[0].path) == At(first, Then(Key("message"), Then(Key("content"), End)));
      assert At(b, Candidates[1].path) == At(first, Then(Key("text"), End));
      assert At(b, Candidates[2].path) == At(first, End);
      if first.JObject? {
        var message := Get(first.members, "message");
        if message.Some? && message.value.JObject? {
          assert At(message.value, Then(Key("content"), End)) == Get(message.value.members, "content");
          assert At(first, Then(Key("message"), Then(Key("content"), End))) == Get(message.value.members, "content");
        } else {
          assert At(first, Then(Key("message"), Then(Key("content"), End))).None?;
        }
        assert At(first, Then(Key("text"), End)) == Get(first.members, "text");
      }
    } else {
      assert At(b, Candidates[0].path).None?;
      assert At(b, Candidates[1].path).None?;
      assert At(b, Candidates[2].path).None?;
    }
  }

  /** The parser returns the text at the first usable candidate, in the table's order. */
  lemma ParseFollowsCandidates(body: seq<Member>)
    ensures ParseGeneratedText(body) == FirstUsable(JObject(body), Candidates, 0)
  {
    ChoicesFollowCandidates(body);
    TopLevelFollowsCandidates(body);
  }

  /** Entries with other keys after the last matching one do not change a lookup. */
  lemma {:induction false} GetSkipsOtherKeys(front: seq<Member>, rest: seq<Member>, key: string)
    requires forall i :: 0 <= i < |rest| ==> rest[i].key != key
    ensures Get(front + rest, key) == Get(front, key)
    decreases |rest|
  {
    if rest != [] {
      var all := front + rest;
      assert all[..|all| - 1] == front + rest[..|rest| - 1];
      GetSkipsOtherKeys(front, rest[..|rest| - 1], key);
    } else {
      assert front + rest == front;
    }
  }

  /** A chat-completion body whose only `choices` entry comes first yields its message content verbatim. */
  lemma ParseChatCompletion(content: string, rest: seq<Member>)
    requires forall i :: 0 <= i < |rest| ==> rest[i].key != "choices"
    ensures ParseGeneratedText([Member("choices", JArray([JObject([Member("message", JObject([Member("content", JString(content))]))])]))] + rest) == content
  {
    var front := [Member("choices", JArray([JObject([Member("message", JObject([Member("content", JString(content))]))])]))];
    GetSkipsOtherKeys(front, rest, "choices");
  }

  // ---------------------------------------------------------------------------
  // Requests and outcomes
  // ---------------------------------------------------------------------------

  const SystemPrompt := "You are an assistant that answers clearly and concisely. Be helpful and reference any provided context when useful."
  const ContextHeading := "Retrieved context:\n"
  const ContextSeparator := "\n\n---\n\n"
  const MaxTokens: int := 800
  const DefaultModel := "gpt-4o-mini"
  const NonSuccessPrefix := "LLM provider returned non-2xx: "
  const RequestFailedPrefix := "LLM request failed: "
  const UnavailableText := "LLM temporarily unavailable (rate limit or error). Please try again later."

  /** One entry of the chat message list. */
  datatype ChatEntry = ChatEntry(role: string, content: string)

  /** The JSON payload: model, messages and the token limit. */
  datatype Payload = Payload(model: string, messages: seq<ChatEntry>, maxTokens: int)

  /** What is posted, and to where; `bearer` is the bearer token sent, if any. */
  datatype HttpRequest = HttpRequest(endpoint: string, payload: Payload, bearer: Option<string>)

  /** How the POST ended: a response (status, its rendering, the decoded body) or an exception and its message. */
  datatype HttpOutcome =
    | Response(status: int, statusText: string, body: Option<seq<Member>>)
    | Failure(message: Option<string>)

  /**
   * The message list: the system prompt first and the user's message last,
   * with the retrieved context between them exactly when there are snippets.
   */
  function MessagesFor(userMessage: string, snippets: Option<seq<string>>): (m: seq<ChatEntry>)
    ensures |m| >= 2 && m[0] == ChatEntry("system", SystemPrompt) && m[|m| - 1] == ChatEntry("user", userMessage)
    ensures |m| == 3 <==> snippets.Some? && |snippets.value| > 0
    ensures |m| <= 3
    ensures |m| == 3 ==> m[1] == ChatEntry("system", ContextHeading + Join(snippets.value, ContextSeparator))
  {
    [ChatEntry("system", SystemPrompt)]
    + (if snippets.Some? && |snippets.value| > 0
       then [ChatEntry("system", ContextHeading + Join(snippets.value, ContextSeparator))]
       else [])
    + [ChatEntry("user", userMessage)]
  }

  /**
   * The generated text for an outcome: a 2xx response with a body is parsed;
   * any other response reports its status; an exception reports its message.
   */
  function OutcomeText(outcome: HttpOutcome): (t: string)
    ensures outcome.Response? && 200 <= outcome.status <= 299 && outcome.body.Some? ==> t == ParseGeneratedText(outcome.body.value)
    ensures outcome.Response? && !(200 <= outcome.status <= 299 && outcome.body.Some?) ==> t == NonSuccessPrefix + outcome.statusText
    ensures outcome.Failure? && outcome.message.Some? ==> t == RequestFailedPrefix + outcome.message.value
    ensures outcome.Failure? && outcome.message.None? ==> t == RequestFailedPrefix + "null"
  {
    match outcome
    case Response(status, statusText, body) =>
      if 200 <= status <= 299 && body.Some? then ParseGeneratedText(body.value) else NonSuccessPrefix + statusText
    case Failure(message) =>
      RequestFailedPrefix + (if message.Some? then message.value else "null")
  }

  class OpenAiLlmClient {
    const apiKey: Option<string>
    const endpoint: string
    const model: string

    /** The configured model, or the default one when none is configured. */
    constructor (apiKey: Option<string>, endpoint: string, model: Option<string>)
      ensures this.apiKey == apiKey && this.endpoint == endpoint
      ensures model.Some? ==> this.model == model.value
      ensures model.None? ==> this.model == DefaultModel
    {
      this.apiKey := apiKey;
      this.endpoint := endpoint;
      this.model := model.GetOr(DefaultModel);
    }

    /** The request `generate` posts; the bearer token is sent only for a non-blank key. */
    function RequestFor(userMessage: string, snippets: Option<seq<string>>): HttpRequest {
      HttpRequest(endpoint, Payload(model, MessagesFor(userMessage, snippets), MaxTokens),
                  if apiKey.Some? && !IsBlank(apiKey.value) then apiKey else None)
    }

    /** Builds the message list entry by entry, as `generate` does. */
    method BuildMessages(userMessage: string, retrievedSnippets: Option<seq<string>>) returns (messages: seq<ChatEntry>)
      ensures messages == MessagesFor(userMessage, retrievedSnippets)
    {
      messages := [];
      messages := messages + [ChatEntry("system", SystemPrompt)];
      if retrievedSnippets.Some? && |retrievedSnippets.value| > 0 {
        var joined := Join(retrievedSnippets.value, ContextSeparator);
        messages := messages + [ChatEntry("system", ContextHeading + joined)];
      }
      messages := messages + [ChatEntry("user", userMessage)];
    }

    /**
     * `generate` itself: a null message is rejected by throwing (None here);
     * otherwise the request is posted once and every outcome becomes a reply
     * under the configured model.
     */
    method Generate(userMessage: Option<string>, retrievedSnippets: Option<seq<string>>, post: HttpRequest -> HttpOutcome)
      returns (r: Option<LlmResponse>)
      ensures userMessage.None? <==> r.None?
      ensures r.Some? ==> r.value.model == model
      ensures r.Some? ==> r.value.generatedText == OutcomeText(post(RequestFor(userMessage.value, retrievedSnippets)))
    {
      if userMessage.None? {
        return None;
      }
      var messages := BuildMessages(userMessage.value, retrievedSnippets);
      var payload := Payload(model, messages, MaxTokens);
      var bearer := if apiKey.Some? && !IsBlank(apiKey.value) then apiKey else None;
      var outcome := post(HttpRequest(endpoint, payload, bearer));
      var text := OutcomeText(outcome);
      r := Some(LlmResponse(text, model));
    }

    /**
     * `generate` behind the rate limiter: a refused call, and any exception
     * thrown by `generate`, is answered by `llmRateLimitFallback`.
     */
    method GuardedGenerate(userMessage: Option<string>, retrievedSnippets: Option<seq<string>>, permitted: bool,
                           post: HttpRequest -> HttpOutcome)
      returns (r: LlmResponse)
      ensures r.model == model
      ensures !permitted || userMessage.None? ==> r.generatedText == UnavailableText
      ensures permitted && userMessage.Some? ==> r.generatedText == OutcomeText(post(RequestFor(userMessage.value, retrievedSnippets)))
    {
      if !permitted {
        return LlmResponse(UnavailableText, model);
      }
      var result := Generate(userMessage, retrievedSnippets, post);
      if result.None? {
        return LlmResponse(UnavailableText, model);
      }
      r := result.value;
    }
  }
}
