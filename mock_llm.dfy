/**
 * The stub LLM client: it echoes the user's message and lists the snippets
 * one per paragraph. A call the rate limiter refuses gets a fixed advisory
 * text instead, under the same model id.
 */
module MockLlm {
  import opened Strings
  import opened LlmClient

  const MockModel := "mock-model-1.0"
  const ReplyIntro := "Assistant (mock): processed message: "
  const ContextIntro := "\n\ncontext:\n"
  const SnippetDelimiter := "\n\n"
  const RateLimitedText := "LLM temporarily rate-limited. Please retry after a short while."

  /** The reply: the fixed introduction, the message, then the snippets one per paragraph. */
  function Reply(userMessage: string, snippets: seq<string>): (r: string)
    ensures snippets == [] ==> r == ReplyIntro + userMessage + ContextIntro
    ensures |snippets| == 1 ==> r == ReplyIntro + userMessage + ContextIntro + snippets[0]
  {
    ReplyIntro + userMessage + ContextIntro + Join(snippets, SnippetDelimiter)
  }

  /** `generate`: adds the snippets to a StringJoiner one by one, then builds the reply. */
  method Generate(userMessage: string, retrievedSnippets: seq<string>) returns (r: LlmResponse)
    ensures r == LlmResponse(Reply(userMessage, retrievedSnippets), MockModel)
  {
    var joiner := "";
    var i := 0;
    while i < |retrievedSnippets|
      invariant 0 <= i <= |retrievedSnippets|
      invariant joiner == Join(retrievedSnippets[..i], SnippetDelimiter)
    {
      JoinSnoc(retrievedSnippets[..i], retrievedSnippets[i], SnippetDelimiter);
      assert retrievedSnippets[..i + 1] == retrievedSnippets[..i] + [retrievedSnippets[i]];
      joiner := if i == 0 then retrievedSnippets[i] else joiner + SnippetDelimiter + retrievedSnippets[i];
      i := i + 1;
    }
    assert retrievedSnippets[..i] == retrievedSnippets;
    r := LlmResponse(ReplyIntro + userMessage + ContextIntro + joiner, MockModel);
  }

  /**
   * `generate` behind the rate limiter: `permitted` is the limiter's decision
   * for this call; a refused call is answered by `llmRateLimitFallback`.
   */
  method GuardedGenerate(userMessage: string, retrievedSnippets: seq<string>, permitted: bool) returns (r: LlmResponse)
    ensures r.model == MockModel
    ensures permitted ==> r.generatedText == Reply(userMessage, retrievedSnippets)
    ensures !permitted ==> r.generatedText == RateLimitedText
  {
    if permitted {
      r := Generate(userMessage, retrievedSnippets);
    } else {
      r := LlmResponse(RateLimitedText, MockModel);
    }
  }

  // ---------------------------------------------------------------------------
  // Properties of the reply
  // ---------------------------------------------------------------------------

  /** The message is quoted right after the introduction, and the context block follows it. */
  lemma ReplyQuotesMessage(userMessage: string, snippets: seq<string>)
    ensures OccursAt(Reply(userMessage, snippets), userMessage, |ReplyIntro|)
    ensures OccursAt(Reply(userMessage, snippets), ContextIntro, |ReplyIntro| + |userMessage|)
  {
    var r := Reply(userMessage, snippets);
    assert r == ReplyIntro + userMessage + ContextIntro + Join(snippets, SnippetDelimiter);
    assert r[|ReplyIntro|..|ReplyIntro| + |userMessage|] == userMessage;
    assert r[|ReplyIntro| + |userMessage|..|ReplyIntro| + |userMessage| + |ContextIntro|] == ContextIntro;
  }

  /** Without snippets the reply ends with the context heading. */
  lemma ReplyWithoutSnippets(userMessage: string)
    ensures var r := Reply(userMessage, []);
      |r| >= 9 && r[|r| - 9..] == "context:\n"
  {
    var r := Reply(userMessage, []);
    assert r == ReplyIntro + userMessage + ContextIntro;
  }

  /**
   * The snippets appear in the reply in the order given: snippet `i` sits at a
   * fixed offset after the context heading, and every later snippet starts
   * after it ends.
   */
  lemma ReplyKeepsSnippetOrder(userMessage: string, snippets: seq<string>, i: nat)
    requires i < |snippets|
    ensures var at := |ReplyIntro| + |userMessage| + |ContextIntro| + Offset(snippets, SnippetDelimiter, i);
      OccursAt(Reply(userMessage, snippets), snippets[i], at)
    ensures forall j :: i < j < |snippets| ==>
      Offset(snippets, SnippetDelimiter, i) + |snippets[i]| <= Offset(snippets, SnippetDelimiter, j)
  {
    var head := ReplyIntro + userMessage + ContextIntro;
    var joined := Join(snippets, SnippetDelimiter);
    JoinContainsPartsInOrder(snippets, SnippetDelimiter, i);
    assert Reply(userMessage, snippets) == head + joined;
    OccursAfterPrefix(head, joined, snippets[i], Offset(snippets, SnippetDelimiter, i));
  }

  /** An occurrence in `s` is an occurrence in `head + s`, shifted by the length of `head`. */
  lemma OccursAfterPrefix(head: string, s: string, t: string, k: nat)
    requires OccursAt(s, t, k)
    ensures OccursAt(head + s, t, |head| + k)
  {
    assert (head + s)[|head| + k..|head| + k + |t|] == s[k..k + |t|];
  }
}
