/**
 * The generation pipeline: ingest, retrieve, synthesize, validate and
 * export, run in that order, each stage's keys merged into the state before
 * the next stage reads it.
 */
module Pipeline {
  import opened Wrappers
  import opened Text
  import opened Documents
  import opened Synthesis
  import opened Workspace
  import opened State
  import opened Compiler

  /** The last two stages: validate with the check's result, then export. */
  function ValidateThenExport(s3: GenState, res: Outcome, exportRun: Outcome, dest: Path): GenState {
    var s4 := Merge(s3, ValidateUpdate(s3, res));
    Merge(s4, ExportUpdate(s4, exportRun, dest))
  }

  /**
   * One pipeline run from the initial state `{"question": question}`, given
   * the oracles: the store's results, the model's reply, the outcomes of the
   * check, fallback and export runs, and the export destination.
   */
  function Generate(question: Option<string>, results: seq<(Document, real)>, formatScore: real -> string,
                    reply: string, check: Outcome, fallback: Outcome, exportRun: Outcome, dest: Path)
    : Result<GenState, string>
  {
    var s0 := Empty.(question := question);
    match Ingest(s0)
    case Failure(e) => Failure(e)
    case Success(u1) =>
      var s1 := Merge(s0, u1);
      match RetrieveUpdate(results, formatScore)
      case Failure(e) => Failure(e)
      case Success(u2) =>
        var s2 := Merge(s1, u2);
        var s3 := Merge(s2, Synthesize(s2, reply));
        Success(ValidateThenExport(s3, CheckResult(check, fallback), exportRun, dest))
  }

  /** The state after synthesize, from which validation and export go on. */
  function Synthesized(q: string, results: seq<(Document, real)>, formatScore: real -> string, reply: string): (s: GenState)
    requires ParametersListable(results)
    ensures s.code == Some(NormalizeCode(reply))
    ensures s.errors == Some(ApplyGuardrails(NormalizeCode(reply)))
    ensures s.validation.None? && s.exported.None? && s.stlPath.None?
  {
    var s1 := Empty.(question := Some(Strip(q)));
    var s2 := Merge(s1, RetrieveUpdate(results, formatScore).value);
    Merge(s2, Synthesize(s2, reply))
  }

  /** A successful run is the synthesized state carried through validate and export. */
  lemma GenerateUnfold(question: Option<string>, results: seq<(Document, real)>, formatScore: real -> string,
                       reply: string, check: Outcome, fallback: Outcome, exportRun: Outcome, dest: Path)
    requires Generate(question, results, formatScore, reply, check, fallback, exportRun, dest).Success?
    ensures question.Some? && !AllSpace(question.value) && ParametersListable(results)
    ensures Generate(question, results, formatScore, reply, check, fallback, exportRun, dest)
      == Success(ValidateThenExport(Synthesized(question.value, results, formatScore, reply),
                                    CheckResult(check, fallback), exportRun, dest))
  {
    GenerateFails(question, results, formatScore, reply, check, fallback, exportRun, dest);
  }

  /** A run fails exactly when ingest or retrieve raises. */
  lemma GenerateFails(question: Option<string>, results: seq<(Document, real)>, formatScore: real -> string,
                      reply: string, check: Outcome, fallback: Outcome, exportRun: Outcome, dest: Path)
    ensures Generate(question, results, formatScore, reply, check, fallback, exportRun, dest).Failure?
      <==> question.None? || AllSpace(question.value) || !ParametersListable(results)
  {
  }

  /** The synthesized state holds the stripped question, the retrieved snippets, the prompt built from them and the normalized code. */
  lemma SynthesizedFields(q: string, results: seq<(Document, real)>, formatScore: real -> string, reply: string)
    requires ParametersListable(results)
    ensures var s := Synthesized(q, results, formatScore, reply);
      && s.question == Some(Strip(q))
      && s.snippets == Some(Snippets(results))
      && s.prompt == Some(BuildPrompt(Strip(q), Join("\n\n", PipelineBlocks(results, formatScore))))
  {
    RetrieveShape(results, formatScore);
  }

  /** A successful run holds the stripped question, the retrieved snippets, the prompt built from them and the normalized code. */
  lemma GenerateFields(question: Option<string>, results: seq<(Document, real)>, formatScore: real -> string,
                       reply: string, check: Outcome, fallback: Outcome, exportRun: Outcome, dest: Path)
    requires Generate(question, results, formatScore, reply, check, fallback, exportRun, dest).Success?
    ensures var r := Generate(question, results, formatScore, reply, check, fallback, exportRun, dest).value;
      && r.question == Some(Strip(question.value))
      && r.snippets == Some(Snippets(results))
      && r.code == Some(NormalizeCode(reply))
      && r.prompt == Some(BuildPrompt(Strip(question.value), Join("\n\n", PipelineBlocks(results, formatScore))))
  {
    GenerateUnfold(question, results, formatScore, reply, check, fallback, exportRun, dest);
    var s3 := Synthesized(question.value, results, formatScore, reply);
    SynthesizedFields(question.value, results, formatScore, reply);
    TailKeeps(s3, CheckResult(check, fallback), exportRun, dest);
  }

  // ----- validate then export, from any synthesized state -----

  /** Validate and export leave the question, snippets, context, prompt and code as they were. */
  lemma TailKeeps(s3: GenState, res: Outcome, exportRun: Outcome, dest: Path)
    ensures var r := ValidateThenExport(s3, res, exportRun, dest);
      && r.question == s3.question && r.snippets == s3.snippets && r.context == s3.context
      && r.prompt == s3.prompt && r.code == s3.code
  {
    ValidateKeys(s3, res);
    var s4 := Merge(s3, ValidateUpdate(s3, res));
    ExportKeys(s4, exportRun, dest);
  }

  /** An STL path is reported exactly when the check passed on non-blank code and the export exited with 0. */
  lemma TailGate(s3: GenState, res: Outcome, exportRun: Outcome, dest: Path)
    requires s3.validation.None? && s3.stlPath.None?
    ensures var r := ValidateThenExport(s3, res, exportRun, dest);
      r.stlPath.Some? <==> !IsBlank(Code(s3)) && res.Exited? && res.code == 0 && exportRun.Exited? && exportRun.code == 0
    ensures var r := ValidateThenExport(s3, res, exportRun, dest);
      r.stlPath.Some? ==>
        && r.stlPath.value == dest
        && r.validation.Some? && r.validation.value.status == CheckPassed
        && r.exported.Some? && r.exported.value.status == ExportSucceeded
  {
  }

  /** Validate and export keep the log as a prefix, add at most two messages, and none exactly when an STL path results. */
  lemma TailErrors(s3: GenState, res: Outcome, exportRun: Outcome, dest: Path)
    requires s3.validation.None? && s3.stlPath.None?
    ensures var r := ValidateThenExport(s3, res, exportRun, dest);
      && r.errors.Some? && |Errors(s3)| <= |r.errors.value| <= |Errors(s3)| + 2
      && r.errors.value[..|Errors(s3)|] == Errors(s3)
      && (|r.errors.value| == |Errors(s3)| <==> r.stlPath.Some?)
  {
    var s4 := Merge(s3, ValidateUpdate(s3, res));
    ExportErrors(s4, exportRun, dest);
    var e3 := Errors(s3);
    var e4 := Errors(s4);
    var r := ValidateThenExport(s3, res, exportRun, dest);
    assert e4[..|e3|] == e3;
    assert r.errors.value[..|e4|] == e4;
    assert r.errors.value[..|e3|] == e4[..|e3|];
  }

  /** Without the compiler executable, validation reports `missing` and export is skipped by its gate. */
  lemma TailWithoutCompiler(s3: GenState, exportRun: Outcome, dest: Path)
    requires s3.validation.None? && s3.exported.None? && s3.stlPath.None? && s3.errors.Some?
    requires !IsBlank(Code(s3))
    ensures var r := ValidateThenExport(s3, NotFound, exportRun, dest);
      && r.validation == Some(Validation(CheckMissing, None, ""))
      && r.exported.None? && r.stlPath.None?
      && r.errors == Some(Errors(s3) + [CheckNotFoundMessage] + [SkipMessage])
  {
  }

  /** Blank code is reported by validate and skipped by export, without a `validation` key. */
  lemma TailBlankCode(s3: GenState, res: Outcome, exportRun: Outcome, dest: Path)
    requires s3.validation.None? && s3.exported.None? && s3.stlPath.None? && s3.errors.Some?
    requires IsBlank(Code(s3))
    ensures var r := ValidateThenExport(s3, res, exportRun, dest);
      && r.validation.None? && r.exported.None? && r.stlPath.None?
      && r.errors == Some(Errors(s3) + [EmptyCodeMessage] + [SkipMessage])
  {
  }

  // ----- whole runs -----

  /**
   * The gate: an STL path is reported only for the chosen destination, after
   * the check reported success on non-blank code and the export exited with 0.
   */
  lemma GenerateGate(question: Option<string>, results: seq<(Document, real)>, formatScore: real -> string,
                     reply: string, check: Outcome, fallback: Outcome, exportRun: Outcome, dest: Path)
    requires Generate(question, results, formatScore, reply, check, fallback, exportRun, dest).Success?
    ensures var r := Generate(question, results, formatScore, reply, check, fallback, exportRun, dest).value;
      r.stlPath.Some? <==>
        && !IsBlank(NormalizeCode(reply))
        && CheckResult(check, fallback).Exited? && CheckResult(check, fallback).code == 0
        && exportRun.Exited? && exportRun.code == 0
    ensures var r := Generate(question, results, formatScore, reply, check, fallback, exportRun, dest).value;
      r.stlPath.Some? ==>
        && r.stlPath.value == dest
        && r.validation.Some? && r.validation.value.status == CheckPassed
        && r.exported.Some? && r.exported.value.status == ExportSucceeded
  {
    GenerateUnfold(question, results, formatScore, reply, check, fallback, exportRun, dest);
    TailGate(Synthesized(question.value, results, formatScore, reply), CheckResult(check, fallback), exportRun, dest);
  }

  /**
   * The error log of a successful run: the guardrail messages, then at most
   * two more from validate and export; nothing more exactly when an STL
   * path was produced.
   */
  lemma GenerateErrors(question: Option<string>, results: seq<(Document, real)>, formatScore: real -> string,
                       reply: string, check: Outcome, fallback: Outcome, exportRun: Outcome, dest: Path)
    requires Generate(question, results, formatScore, reply, check, fallback, exportRun, dest).Success?
    ensures var r := Generate(question, results, formatScore, reply, check, fallback, exportRun, dest).value;
      var g := ApplyGuardrails(NormalizeCode(reply));
      && r.errors.Some? && |g| <= |r.errors.value| <= |g| + 2
      && r.errors.value[..|g|] == g
      && (r.errors.value == g <==> r.stlPath.Some?)
  {
    GenerateUnfold(question, results, formatScore, reply, check, fallback, exportRun, dest);
    TailErrors(Synthesized(question.value, results, formatScore, reply), CheckResult(check, fallback), exportRun, dest);
  }

  /**
   * Without the compiler executable (and with non-blank code), validation
   * reports `missing` and export is skipped by its gate: no `export` key and
   * no STL path.
   */
  lemma GenerateWithoutCompiler(question: Option<string>, results: seq<(Document, real)>, formatScore: real -> string,
                                reply: string, fallback: Outcome, exportRun: Outcome, dest: Path)
    requires Generate(question, results, formatScore, reply, NotFound, fallback, exportRun, dest).Success?
    requires !IsBlank(NormalizeCode(reply))
    ensures var r := Generate(question, results, formatScore, reply, NotFound, fallback, exportRun, dest).value;
      && r.validation == Some(Validation(CheckMissing, None, ""))
      && r.exported.None? && r.stlPath.None?
      && r.errors == Some(ApplyGuardrails(NormalizeCode(reply)) + [CheckNotFoundMessage] + [SkipMessage])
  {
    GenerateUnfold(question, results, formatScore, reply, NotFound, fallback, exportRun, dest);
    TailWithoutCompiler(Synthesized(question.value, results, formatScore, reply), exportRun, dest);
  }

  /** Blank generated code is reported by validate and skipped by export, without a `validation` key. */
  lemma GenerateBlankCode(question: Option<string>, results: seq<(Document, real)>, formatScore: real -> string,
                          reply: string, check: Outcome, fallback: Outcome, exportRun: Outcome, dest: Path)
    requires Generate(question, results, formatScore, reply, check, fallback, exportRun, dest).Success?
    requires IsBlank(NormalizeCode(reply))
    ensures var r := Generate(question, results, formatScore, reply, check, fallback, exportRun, dest).value;
      && r.validation.None? && r.exported.None? && r.stlPath.None?
      && r.errors == Some(ApplyGuardrails(NormalizeCode(reply)) + [EmptyCodeMessage] + [SkipMessage])
  {
    GenerateUnfold(question, results, formatScore, reply, check, fallback, exportRun, dest);
    TailBlankCode(Synthesized(question.value, results, formatScore, reply), CheckResult(check, fallback), exportRun, dest);
  }

  // ----- the run on the sandbox -----

  /**
   * Validate then export on the sandbox: no temporary file survives, and the
   * STL destination does exactly when an STL path is reported and the
   * export wrote it.
   */
  method CheckAndExport(ws: Sandbox, s3: GenState, check: Outcome, fallback: Outcome, exportRun: Outcome,
                        outputDir: Option<string>)
    returns (s5: GenState, ghost dest: Path)
    requires ws.Valid()
    requires s3.validation.None? && s3.stlPath.None?
    modifies ws
    ensures ws.Valid()
    ensures s5 == ValidateThenExport(s3, CheckResult(check, fallback), exportRun, dest)
    ensures ws.files == old(ws.files)
      + (if s5.stlPath.Some? && exportRun.Exited? && exportRun.wroteOutput then {dest} else {})
    ensures s5.stlPath.Some? ==> dest == OutputPath(ExportDir(outputDir), dest.id) && dest !in old(ws.files)
    ensures IsBlank(Code(s3)) ==> ws.attempts == old(ws.attempts)
  {
    var validated := Validate(ws, s3, check, fallback);
    var s4 := Merge(s3, validated);
    assert Code(s4) == Code(s3);
    var exported;
    exported, dest := Export(ws, s4, exportRun, outputDir);
    s5 := Merge(s4, exported);
    assert s5.stlPath == exported.stlPath;
  }

  /**
   * Runs the pipeline on the sandbox. A failed run touches nothing; a
   * successful one leaves no temporary file behind, and at most the STL it
   * reports. `dest` is the export destination chosen, if export ran.
   */
  method Invoke(ws: Sandbox, question: Option<string>, results: seq<(Document, real)>, formatScore: real -> string,
                reply: string, check: Outcome, fallback: Outcome, exportRun: Outcome, outputDir: Option<string>)
    returns (r: Result<GenState, string>, ghost dest: Path)
    requires ws.Valid()
    modifies ws
    ensures ws.Valid()
    ensures r == Generate(question, results, formatScore, reply, check, fallback, exportRun, dest)
    ensures r.Failure? ==> ws.files == old(ws.files) && ws.dirs == old(ws.dirs) && ws.attempts == old(ws.attempts)
    ensures ws.files == old(ws.files)
      + (if r.Success? && r.value.stlPath.Some? && exportRun.Exited? && exportRun.wroteOutput then {dest} else {})
    ensures r.Success? && r.value.stlPath.Some? ==>
      dest == OutputPath(ExportDir(outputDir), dest.id) && dest !in old(ws.files)
    ensures r.Success? && IsBlank(NormalizeCode(reply)) ==> ws.attempts == old(ws.attempts)
  {
    dest := OutputPath(ExportDir(outputDir), 0);
    GenerateFails(question, results, formatScore, reply, check, fallback, exportRun, dest);
    var s := Empty.(question := question);
    var ingested := Ingest(s);
    if ingested.Failure? {
      return Failure(ingested.error), dest;
    }
    s := Merge(s, ingested.value);
    var retrieved := Retrieve(results, formatScore);
    if retrieved.Failure? {
      return Failure(retrieved.error), dest;
    }
    s := Merge(s, retrieved.value);
    s := Merge(s, Synthesize(s, reply));
    assert s == Synthesized(question.value, results, formatScore, reply);
    var s5;
    s5, dest := CheckAndExport(ws, s, check, fallback, exportRun, outputDir);
    r := Success(s5);
    GenerateUnfold(question, results, formatScore, reply, check, fallback, exportRun, dest);
  }
}
