/**
 * The retrieval service and its stub. A retriever maps a query and a count
 * `topK` to ranked results; the stub makes `topK` canned snippets, each of
 * which quotes the query, with rank-numbered sources.
 */
module Retrieval {
  import opened Strings

  /** Java's `int`. */
  const MinInt: int := -0x8000_0000
  const MaxInt: int := 0x7FFF_FFFF

  /** One retrieved snippet and where it came from. */
  datatype RetrievalResult = RetrievalResult(snippet: string, source: string)

  /** A retrieval service: query and `topK` to results in rank order. */
  type Retriever = (string, int) -> seq<RetrievalResult>

  const SnippetPrefix := "Snippet "
  const QueryIntro := " for query: \""
  const SnippetSuffix := "\" \U{2014} (sample context)"
  const SourcePrefix := "mock-source-"

  /** The canned snippet of the given rank: the rank in decimal, then the query in quotes. */
  function MockSnippet(query: string, rank: nat): string {
    SnippetPrefix + NatToDecimal(rank) + QueryIntro + query + SnippetSuffix
  }

  /** The source of the result of the given rank. */
  function MockSource(rank: nat): string {
    SourcePrefix + NatToDecimal(rank)
  }

  /** What the stub returns: ranks 1 to `topK`, none at all when `topK` is not positive. */
  function MockResults(query: string, topK: int): (r: seq<RetrievalResult>)
    ensures |r| == if topK < 0 then 0 else topK
    ensures forall i :: 0 <= i < |r| ==> r[i] == RetrievalResult(MockSnippet(query, i + 1), MockSource(i + 1))
  {
    seq(if topK < 0 then 0 else topK, i requires 0 <= i => RetrievalResult(MockSnippet(query, i + 1), MockSource(i + 1)))
  }

  /**
   * `MockRetrievalService.retrieve`: the counting loop. The loop variable is a
   * Java `int`, so for `topK` = MaxInt it would wrap round and never stop.
   */
  method Retrieve(query: string, topK: int) returns (out: seq<RetrievalResult>)
    requires topK < MaxInt
    ensures out == MockResults(query, topK)
  {
    out := [];
    var i := 1;
    while i <= topK
      invariant if topK < 0 then i == 1 else 1 <= i <= topK + 1
      invariant |out| == i - 1
      invariant forall j :: 0 <= j < |out| ==> out[j] == RetrievalResult(MockSnippet(query, j + 1), MockSource(j + 1))
      decreases topK - i
    {
      out := out + [RetrievalResult(MockSnippet(query, i), MockSource(i))];
      i := i + 1;
    }
  }

  /** One call of `retrieve`: the query and the number of results asked for. */
  datatype RetrieveRequest = RetrieveRequest(query: string, topK: int)

  /**
   * The retrieval bean as the message service holds it: its results are
   * given by `retrieve`, and it records every call it receives, in order.
   */
  class RetrievalService {
    const retrieve: Retriever
    var received: seq<RetrieveRequest>

    constructor (retrieve: Retriever)
      ensures this.retrieve == retrieve && received == []
    {
      this.retrieve := retrieve;
      received := [];
    }

    method Retrieve(query: string, topK: int) returns (results: seq<RetrievalResult>)
      modifies this
      ensures results == retrieve(query, topK)
      ensures received == old(received) + [RetrieveRequest(query, topK)]
    {
      results := retrieve(query, topK);
      received := received + [RetrieveRequest(query, topK)];
    }
  }

  // ---------------------------------------------------------------------------
  // Properties of the stub's results
  // ---------------------------------------------------------------------------

  /** Every snippet quotes the query verbatim, right after the rank and the fixed introduction. */
  lemma SnippetQuotesQuery(query: string, rank: nat)
    ensures OccursAt(MockSnippet(query, rank), query, |SnippetPrefix| + |NatToDecimal(rank)| + |QueryIntro|)
    ensures Contains(MockSnippet(query, rank), query)
  {
    var k := |SnippetPrefix| + |NatToDecimal(rank)| + |QueryIntro|;
    var s := MockSnippet(query, rank);
    assert s == (SnippetPrefix + NatToDecimal(rank) + QueryIntro) + query + SnippetSuffix;
    assert s[k..k + |query|] == query;
  }

  /** The rank can be read back from the source, so the results appear in rank order 1, 2, ... */
  lemma {:induction false} SourceNamesRank(rank: nat)
    ensures var s := MockSource(rank);
      && |s| > |SourcePrefix| && s[..|SourcePrefix|] == SourcePrefix
      && (forall i :: |SourcePrefix| <= i < |s| ==> IsDigit(s[i]))
      && DecimalValue(s[|SourcePrefix|..]) == rank
  {
    var s := MockSource(rank);
    assert s[|SourcePrefix|..] == NatToDecimal(rank);
    DecimalRoundTrip(rank);
  }

  /** No two results of one call share a source. */
  lemma SourcesDistinct(query: string, topK: int, i: nat, j: nat)
    requires i < j < |MockResults(query, topK)|
    ensures MockResults(query, topK)[i].source != MockResults(query, topK)[j].source
  {
    var r := MockResults(query, topK);
    if r[i].source == r[j].source {
      SourceNamesRank(i + 1);
      SourceNamesRank(j + 1);
      assert false;
    }
  }
}
