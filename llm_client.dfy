/** What every LLM client returns, and the shape of its `generate` operation. */
module LlmClient {

  /** The generated text and the id of the model that produced it. */
  datatype LlmResponse = LlmResponse(generatedText: string, model: string)

  /** `generate` as the message service sees it: the user's message and the snippets, in order, to a reply. */
  type Generator = (string, seq<string>) -> LlmResponse

  /** One call of `generate`: the user's message and the snippets passed with it. */
  datatype GenerateRequest = GenerateRequest(userMessage: string, snippets: seq<string>)

  /**
   * The LLM client bean as the message service holds it: its replies are
   * given by `generate`, and it records every call it receives, in order.
   */
  class LlmClientBean {
    const generate: Generator
    var received: seq<GenerateRequest>

    constructor (generate: Generator)
      ensures this.generate == generate && received == []
    {
      this.generate := generate;
      received := [];
    }

    method Generate(userMessage: string, snippets: seq<string>) returns (response: LlmResponse)
      modifies this
      ensures response == generate(userMessage, snippets)
      ensures received == old(received) + [GenerateRequest(userMessage, snippets)]
    {
      response := generate(userMessage, snippets);
      received := received + [GenerateRequest(userMessage, snippets)];
    }
  }
}
