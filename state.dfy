/**
 * The generation pipeline's shared state and the stages that only compute:
 * ingest, retrieve, synthesize. Every key of the state is optional; each
 * stage returns the keys it writes, and the graph merges them in.
 */
module State {
  import opened Wrappers
  import opened Text
  import opened Documents
  import opened Synthesis
  import opened Workspace

  datatype CheckStatus = CheckPassed | CheckFailed | CheckMissing

  /** The `validation` entry: a status and the compiler's stripped output (no stdout when it was missing). */
  datatype Validation = Validation(status: CheckStatus, stdout: Option<string>, stderr: string)

  datatype ExportStatus = ExportSucceeded | ExportFailed | ExportMissing

  /** The `export` entry, shaped like `validation`. */
  datatype ExportInfo = ExportInfo(status: ExportStatus, stdout: Option<string>, stderr: string)

  /** The generation state; `None` is an absent key. */
  datatype GenState = GenState(
    question: Option<string>,
    snippets: Option<seq<Snippet>>,
    context: Option<string>,
    prompt: Option<string>,
    code: Option<string>,
    validation: Option<Validation>,
    errors: Option<seq<string>>,
    exported: Option<ExportInfo>,
    stlPath: Option<Path>)

  /** The state (or stage update) with no keys. */
  const Empty := GenState(None, None, None, None, None, None, None, None, None)

  /** The state's keys: `question`, `snippets`, ..., `export`, `stl_path`. */
  datatype Key =
    | QuestionKey | SnippetsKey | ContextKey | PromptKey | CodeKey
    | ValidationKey | ErrorsKey | ExportKey | StlPathKey

  /** The state holds a value under key `k`. */
  predicate HasKey(s: GenState, k: Key) {
    match k
    case QuestionKey => s.question.Some?
    case SnippetsKey => s.snippets.Some?
    case ContextKey => s.context.Some?
    case PromptKey => s.prompt.Some?
    case CodeKey => s.code.Some?
    case ValidationKey => s.validation.Some?
    case ErrorsKey => s.errors.Some?
    case ExportKey => s.exported.Some?
    case StlPathKey => s.stlPath.Some?
  }

  /** The state holds no key outside `ks`. */
  predicate KeysWithin(s: GenState, ks: set<Key>) {
    && (HasKey(s, QuestionKey) ==> QuestionKey in ks)
    && (HasKey(s, SnippetsKey) ==> SnippetsKey in ks)
    && (HasKey(s, ContextKey) ==> ContextKey in ks)
    && (HasKey(s, PromptKey) ==> PromptKey in ks)
    && (HasKey(s, CodeKey) ==> CodeKey in ks)
    && (HasKey(s, ValidationKey) ==> ValidationKey in ks)
    && (HasKey(s, ErrorsKey) ==> ErrorsKey in ks)
    && (HasKey(s, ExportKey) ==> ExportKey in ks)
    && (HasKey(s, StlPathKey) ==> StlPathKey in ks)
  }

  function Over<T>(a: Option<T>, b: Option<T>): Option<T> {
    if b.Some? then b else a
  }

  /** Merging a stage's update into the state: every key the update holds replaces the old value. */
  function Merge(s: GenState, u: GenState): (r: GenState)
    ensures u.question.Some? ==> r.question == u.question
    ensures u.question.None? ==> r.question == s.question
    ensures u.snippets.Some? ==> r.snippets == u.snippets
    ensures u.snippets.None? ==> r.snippets == s.snippets
    ensures u.context.Some? ==> r.context == u.context
    ensures u.context.None? ==> r.context == s.context
    ensures u.prompt.Some? ==> r.prompt == u.prompt
    ensures u.prompt.None? ==> r.prompt == s.prompt
    ensures u.code.Some? ==> r.code == u.code
    ensures u.code.None? ==> r.code == s.code
    ensures u.validation.Some? ==> r.validation == u.validation
    ensures u.validation.None? ==> r.validation == s.validation
    ensures u.errors.Some? ==> r.errors == u.errors
    ensures u.errors.None? ==> r.errors == s.errors
    ensures u.exported.Some? ==> r.exported == u.exported
    ensures u.exported.None? ==> r.exported == s.exported
    ensures u.stlPath.Some? ==> r.stlPath == u.stlPath
    ensures u.stlPath.None? ==> r.stlPath == s.stlPath
  {
    GenState(Over(s.question, u.question), Over(s.snippets, u.snippets), Over(s.context, u.context),
             Over(s.prompt, u.prompt), Over(s.code, u.code), Over(s.validation, u.validation),
             Over(s.errors, u.errors), Over(s.exported, u.exported), Over(s.stlPath, u.stlPath))
  }

  /** A merge holds exactly the keys of both sides. */
  lemma MergeKeys(s: GenState, u: GenState, k: Key)
    ensures HasKey(Merge(s, u), k) <==> HasKey(s, k) || HasKey(u, k)
  {
  }

  /** An update with no keys changes nothing, and merging two updates in turn is merging their merge. */
  lemma MergeLaws(s: GenState, u: GenState, v: GenState)
    ensures KeysWithin(u, {}) ==> Merge(s, u) == s
    ensures Merge(Merge(s, u), v) == Merge(s, Merge(u, v))
  {
  }

  /** The error log, `[]` when absent (`state.get("errors", [])`). */
  function Errors(s: GenState): seq<string> {
    s.errors.GetOr([])
  }

  /** The generated code, `""` when absent (`state.get("code", "")`). */
  function Code(s: GenState): string {
    s.code.GetOr("")
  }

  // ----- ingest -----

  const IngestMessage := "Pipeline requires a non-empty 'question' in the state."

  /** The ingest stage: rejects a missing or blank question, otherwise keeps only the question, stripped. */
  function Ingest(s: GenState): (r: Result<GenState, string>)
    ensures r.Failure? <==> s.question.None? || AllSpace(s.question.value)
    ensures r.Failure? ==> r.error == IngestMessage
    ensures r.Success? ==> r.value == Empty.(question := Some(Strip(s.question.value)))
    ensures r.Success? ==> r.value.question.value != [] && IsStripped(r.value.question.value)
  {
    BlankIffAllSpace(s.question.GetOr(""));
    BlankIffStripEmpty(s.question.GetOr(""));
    if s.question.None? || IsBlank(s.question.value) then Failure(IngestMessage)
    else Success(Empty.(question := Some(Strip(s.question.value))))
  }

  /** Surrounding whitespace never changes what ingest keeps. */
  lemma {:induction false} IngestIgnoresPadding(a: string, q: string, b: string)
    requires AllSpace(a) && AllSpace(b) && IsStripped(q) && q != []
    ensures Ingest(Empty.(question := Some(a + q + b))) == Success(Empty.(question := Some(q)))
  {
    StripUnique(a, q, b);
    assert (a + q + b)[|a|] == q[0];
  }

  // ----- retrieve -----

  /**
   * `(snippet.get("parameters") or {}).items()`: a falsy value lists
   * nothing, a mapping lists its pairs, anything else has no `items`.
   */
  function ParameterItems(v: Option<MetaValue>): (r: Option<seq<(string, string)>>)
    ensures v.None? ==> r == Some([])
    ensures r.Some? && r.value != [] ==> v == Some(Mapping(r.value))
    ensures v.Some? && v.value.Mapping? ==> r == Some(v.value.entries)
    ensures r.None? <==> v.Some? && ((v.value.Str? && v.value.text != []) || (v.value.Items? && v.value.items != []))
    ensures v.Some? && ((v.value.Str? && v.value.text == []) || (v.value.Items? && v.value.items == [])) ==> r == Some([])
  {
    match v
    case None => Some([])
    case Some(Mapping(es)) => Some(es)
    case Some(Str(s)) => if s == [] then Some([]) else None
    case Some(Items(xs)) => if xs == [] then Some([]) else None
  }

  /** The context block the pipeline writes for the `index`-th result (counting from 1). */
  function PipelineBlock(index: nat, sn: Snippet, scoreText: string, params: seq<(string, string)>): string {
    Join("\n", ["Snippet " + NatToString(index) + ": " + Display(sn.title),
                "Score: " + scoreText,
                "Summary: " + Display(sn.summary),
                "Parameters:",
                Join("\n", ParameterLines(params)),
                "Code:",
                sn.code])
  }

  /** A block starts with its header line and ends with the snippet's code. */
  lemma PipelineBlockEnds(index: nat, sn: Snippet, scoreText: string, params: seq<(string, string)>)
    ensures IsAt(PipelineBlock(index, sn, scoreText, params), BlockHeader(index, sn) + "\n", 0)
    ensures var b := PipelineBlock(index, sn, scoreText, params);
      |sn.code| <= |b| && b[|b| - |sn.code|..] == sn.code
  {
    JoinEnds("\n", ["Snippet " + NatToString(index) + ": " + Display(sn.title),
                    "Score: " + scoreText,
                    "Summary: " + Display(sn.summary),
                    "Parameters:",
                    Join("\n", ParameterLines(params)),
                    "Code:",
                    sn.code]);
  }

  /** Every result's parameters can be listed. */
  predicate ParametersListable(results: seq<(Document, real)>) {
    forall i | 0 <= i < |results| :: ParameterItems(Get(results[i].0.metadata, "parameters")).Some?
  }

  /** The context blocks, one per result. */
  function PipelineBlocks(results: seq<(Document, real)>, formatScore: real -> string): (r: seq<string>)
    requires ParametersListable(results)
    ensures |r| == |results|
  {
    var sns := Snippets(results);
    seq(|results|, i requires 0 <= i < |results| =>
      PipelineBlock(i + 1, sns[i], formatScore(results[i].1),
                    ParameterItems(Get(results[i].0.metadata, "parameters")).value))
  }

  /**
   * The retrieve stage given the store's results: the snippets and the
   * blocks joined by blank lines, or an error when a result's parameters
   * are neither a mapping nor empty.
   */
  function RetrieveUpdate(results: seq<(Document, real)>, formatScore: real -> string): (r: Result<GenState, string>)
    ensures r.Success? <==> ParametersListable(results)
    ensures r.Success? ==> r.value.snippets.Some? && r.value.context.Some?
  {
    if ParametersListable(results) then
      Success(Empty.(snippets := Some(Snippets(results)),
                     context := Some(Join("\n\n", PipelineBlocks(results, formatScore)))))
    else Failure(ParametersError)
  }

  const ParametersError := "'parameters' metadata has no attribute 'items'"

  /** The retrieve stage, appending one snippet and one block per result. */
  method Retrieve(results: seq<(Document, real)>, formatScore: real -> string) returns (r: Result<GenState, string>)
    ensures r == RetrieveUpdate(results, formatScore)
  {
    var snippets: seq<Snippet> := [];
    var blocks: seq<string> := [];
    var i := 0;
    while i < |results|
      invariant 0 <= i <= |results|
      invariant ParametersListable(results[..i])
      invariant snippets == Snippets(results[..i])
      invariant blocks == PipelineBlocks(results[..i], formatScore)
    {
      var (doc, score) := results[i];
      var sn := FormatSnippet(doc, score);
      var params := ParameterItems(sn.parameters);
      if params.None? {
        assert !ParametersListable(results);
        return Failure(ParametersError);
      }
      snippets := snippets + [sn];
      blocks := blocks + [PipelineBlock(i + 1, sn, formatScore(score), params.value)];
      assert results[..i + 1] == results[..i] + [results[i]];
      i := i + 1;
    }
    assert results[..i] == results;
    r := Success(Empty.(snippets := Some(snippets), context := Some(Join("\n\n", blocks))));
  }

  /**
   * What the retrieve stage promises: one snippet per result in the
   * store's order with the score copied and the code extracted, and a
   * context whose blocks each open with their 1-based header.
   */
  lemma RetrieveShape(results: seq<(Document, real)>, formatScore: real -> string)
    requires ParametersListable(results)
    ensures RetrieveUpdate(results, formatScore).value.snippets.value == Snippets(results)
    ensures forall i :: 0 <= i < |results| ==>
      IsAt(PipelineBlocks(results, formatScore)[i], BlockHeader(i + 1, Snippets(results)[i]) + "\n", 0)
  {
    var blocks := PipelineBlocks(results, formatScore);
    var sns := Snippets(results);
    forall i | 0 <= i < |results|
      ensures IsAt(blocks[i], BlockHeader(i + 1, sns[i]) + "\n", 0)
    {
      PipelineBlockEnds(i + 1, sns[i], formatScore(results[i].1),
                         ParameterItems(Get(results[i].0.metadata, "parameters")).value);
    }
  }

  // ----- synthesize -----

  /**
   * The synthesize stage given the model's reply: the prompt, the
   * normalized code, and a fresh error list holding the guardrail messages.
   */
  function Synthesize(s: GenState, reply: string): (r: GenState)
    ensures r.prompt == Some(BuildPrompt(s.question.GetOr(""), s.context.GetOr("")))
    ensures r.code == Some(NormalizeCode(reply))
  {
    var code := NormalizeCode(reply);
    Empty.(prompt := Some(BuildPrompt(s.question.GetOr(""), s.context.GetOr(""))),
           code := Some(code),
           errors := Some(ApplyGuardrails(code)))
  }

  /**
   * Synthesize discards the previous error log rather than extending it:
   * the new log holds exactly the guardrail findings on the stripped code.
   */
  lemma SynthesizeErrors(s: GenState, reply: string)
    ensures Synthesize(s, reply) == Synthesize(s.(errors := None), reply)
    ensures IsStripped(Code(Synthesize(s, reply)))
    ensures var r := Synthesize(s, reply);
      r.errors.value == [] <==> DeclaresMain(Code(r)) && !Occurs(Code(r), ImportCall)
  {
    GuardrailFindings(NormalizeCode(reply));
  }

  // ----- which keys the first stages write -----

  /** Retrieve writes exactly snippets and context. */
  lemma RetrieveKeys(results: seq<(Document, real)>, formatScore: real -> string)
    requires ParametersListable(results)
    ensures var u := RetrieveUpdate(results, formatScore).value;
      KeysWithin(u, {SnippetsKey, ContextKey}) && HasKey(u, SnippetsKey) && HasKey(u, ContextKey)
  {
  }

  /** Synthesize writes exactly prompt, code and errors. */
  lemma SynthesizeKeys(s: GenState, reply: string)
    ensures var u := Synthesize(s, reply);
      KeysWithin(u, {PromptKey, CodeKey, ErrorsKey}) && HasKey(u, PromptKey) && HasKey(u, CodeKey) && HasKey(u, ErrorsKey)
  {
  }
}
