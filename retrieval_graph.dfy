/**
 * The standalone retrieval graph: one node that formats the store's results
 * into snippets and a context string, with its own check on the question.
 */
module RetrievalGraph {
  import opened Wrappers
  import opened Text
  import opened Documents

  const QuestionMessage := "Retrieval graph requires 'question' in the state."

  /** The node's output keys: the snippets and the context. */
  datatype Retrieved = Retrieved(snippets: seq<Snippet>, context: string)

  /** The context block for the `index`-th result: header, score, summary, then the code. */
  function GraphBlock(index: nat, sn: Snippet, scoreText: string): string {
    Join("\n", [BlockHeader(index, sn), "Score: " + scoreText, "Summary: " + Display(sn.summary), "Code:", sn.code])
  }

  /** The blocks of all results, in the store's order. */
  function GraphBlocks(results: seq<(Document, real)>, formatScore: real -> string): (r: seq<string>)
    ensures |r| == |results|
  {
    var sns := Snippets(results);
    seq(|results|, i requires 0 <= i < |results| => GraphBlock(i + 1, sns[i], formatScore(results[i].1)))
  }

  /**
   * The retrieve node: rejects only a missing or empty question (a
   * whitespace-only one is searched for), then formats every result in
   * order and joins the blocks with blank lines.
   */
  method RetrieveSnippets(question: Option<string>, results: seq<(Document, real)>, formatScore: real -> string)
    returns (r: Result<Retrieved, string>)
    ensures r.Failure? <==> question.None? || question.value == []
    ensures r.Failure? ==> r.error == QuestionMessage
    ensures r.Success? ==> r.value.snippets == Snippets(results)
    ensures r.Success? ==> r.value.context == Join("\n\n", GraphBlocks(results, formatScore))
  {
    if question.None? || question.value == [] {
      return Failure(QuestionMessage);
    }
    var formatted: seq<Snippet> := [];
    var blocks: seq<string> := [];
    var i := 0;
    while i < |results|
      invariant 0 <= i <= |results|
      invariant formatted == Snippets(results[..i])
      invariant blocks == GraphBlocks(results[..i], formatScore)
    {
      var (doc, score) := results[i];
      var info := FormatSnippet(doc, score);
      formatted := formatted + [info];
      blocks := blocks + [GraphBlock(i + 1, info, formatScore(score))];
      assert results[..i + 1] == results[..i] + [results[i]];
      i := i + 1;
    }
    assert results[..i] == results;
    r := Success(Retrieved(formatted, Join("\n\n", blocks)));
  }

  /**
   * What the node promises about each result: its snippet keeps the score
   * and carries the extracted code, and its block opens with the 1-based
   * header and ends with that code.
   */
  lemma RetrievedShape(results: seq<(Document, real)>, formatScore: real -> string, i: nat)
    requires i < |results|
    ensures Snippets(results)[i].score == results[i].1
    ensures Snippets(results)[i].code == ExtractCode(results[i].0.pageContent)
    ensures IsAt(GraphBlocks(results, formatScore)[i], BlockHeader(i + 1, Snippets(results)[i]) + "\n", 0)
    ensures var b := GraphBlocks(results, formatScore)[i];
      var code := ExtractCode(results[i].0.pageContent);
      |code| <= |b| && b[|b| - |code|..] == code
  {
    var sn := Snippets(results)[i];
    var t := formatScore(results[i].1);
    assert GraphBlocks(results, formatScore)[i] == GraphBlock(i + 1, sn, t);
    GraphBlockEnds(i + 1, sn, t);
  }

  /** A block opens with its header line and ends with the snippet's code. */
  lemma GraphBlockEnds(index: nat, sn: Snippet, scoreText: string)
    ensures IsAt(GraphBlock(index, sn, scoreText), BlockHeader(index, sn) + "\n", 0)
    ensures var b := GraphBlock(index, sn, scoreText);
      |sn.code| <= |b| && b[|b| - |sn.code|..] == sn.code
  {
    JoinEnds("\n", [BlockHeader(index, sn), "Score: " + scoreText, "Summary: " + Display(sn.summary), "Code:", sn.code]);
  }
}
