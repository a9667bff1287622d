/**
 * The two stages that call the OpenSCAD compiler: validation (with the
 * fallback for builds whose `--check` flag is ambiguous) and STL export.
 * Each stage is a function from the compiler's outcomes to the keys it
 * writes, and a method on the sandbox that makes the calls and cleans up
 * its files.
 */
module Compiler {
  import opened Wrappers
  import opened Text
  import opened Workspace
  import opened Documents
  import opened State

  /** The diagnostic that a compiler build without an unambiguous `--check` prints. */
  const AmbiguousCheck := "option '--check' is ambiguous"

  /** The check failed only because `--check` was not understood, so the fallback export runs. */
  predicate FallbackTriggered(check: Outcome) {
    check.Exited? && check.code != 0 && Contains(check.stderr, AmbiguousCheck)
  }

  /**
   * The result the check reports, given the outcomes of the check run and
   * of the fallback run (the latter used only when the fallback is triggered).
   */
  function CheckResult(check: Outcome, fallback: Outcome): (r: Outcome)
    ensures !FallbackTriggered(check) ==> r == check
    ensures FallbackTriggered(check) ==> (r.NotFound? <==> fallback.NotFound?)
    ensures FallbackTriggered(check) && fallback.Exited? ==>
      && r.code == fallback.code && r.stdout == fallback.stdout
      && r.stderr == (if fallback.code != 0 && fallback.stderr == [] then check.stderr else fallback.stderr)
    ensures FallbackTriggered(check) && r.Exited? && r.code != 0 ==> r.stderr != []
  {
    if !FallbackTriggered(check) then check
    else match fallback
      case NotFound => NotFound
      case Exited(code, out, err, wrote) =>
        if code != 0 && err == [] then
          assert IsAt(check.stderr, AmbiguousCheck, 0) || check.stderr != [];
          Exited(code, out, check.stderr, wrote)
        else fallback
  }

  /**
   * Runs the check on `scad`; when it is triggered, runs the fallback export
   * once to a throwaway `.stl`, which is removed again whatever happens.
   */
  method RunOpenscadCheck(ws: Sandbox, scad: Path, check: Outcome, fallback: Outcome) returns (r: Outcome)
    requires ws.Valid()
    modifies ws
    ensures ws.Valid()
    ensures r == CheckResult(check, fallback)
    ensures ws.files == old(ws.files) && ws.dirs == old(ws.dirs)
    ensures |ws.attempts| > |old(ws.attempts)|
    ensures ws.attempts[..|old(ws.attempts)| + 1] == old(ws.attempts) + [CheckRun(scad)]
    ensures !FallbackTriggered(check) ==> |ws.attempts| == |old(ws.attempts)| + 1
    ensures FallbackTriggered(check) ==>
      && |ws.attempts| == |old(ws.attempts)| + 2
      && ws.attempts[|old(ws.attempts)| + 1].ExportRun?
      && ws.attempts[|old(ws.attempts)| + 1].source == scad
      && ws.attempts[|old(ws.attempts)| + 1].dest.TempPath?
      && ws.attempts[|old(ws.attempts)| + 1].dest.suffix == ".stl"
      && ws.attempts[|old(ws.attempts)| + 1].dest !in old(ws.files)
  {
    ghost var before0 := ws.attempts;
    ws.Run(CheckRun(scad), check);
    assert ws.attempts[..|before0| + 1] == ws.attempts;
    if check.NotFound? || check.code == 0 || !Contains(check.stderr, AmbiguousCheck) {
      return check;
    }
    ghost var before := ws.attempts;
    var stl := ws.NewTempFile(".stl");
    ws.Run(ExportRun(stl, scad), fallback);
    ws.Unlink(stl);
    assert ws.attempts[..|before|] == before;
    assert ws.attempts[..|before0| + 1] == before;
    if fallback.NotFound? {
      return NotFound;
    }
    r := fallback;
    if fallback.code != 0 && fallback.stderr == [] {
      r := fallback.(stderr := check.stderr);
    }
  }

  // ----- validate -----

  const EmptyCodeMessage := "Model returned empty OpenSCAD code."
  const CheckNotFoundMessage := "OpenSCAD CLI not found. Install it or set OPENSCAD_PATH."
  const CheckFailedMessage := "OpenSCAD validation failed; check stderr for details."

  /** The `validation` entry for a check result. */
  function ValidationOf(res: Outcome): (v: Validation)
    ensures v.status == CheckPassed <==> res.Exited? && res.code == 0
    ensures v.status == CheckMissing <==> res.NotFound?
    ensures IsStripped(v.stderr) && (v.stdout.Some? ==> IsStripped(v.stdout.value))
    ensures res.Exited? ==> v.stdout == Some(Strip(res.stdout)) && v.stderr == Strip(res.stderr)
    ensures res.NotFound? ==> v.stdout.None? && v.stderr == []
  {
    match res
    case NotFound => Validation(CheckMissing, None, "")
    case Exited(code, out, err, _) =>
      Validation(if code == 0 then CheckPassed else CheckFailed, Some(Strip(out)), Strip(err))
  }

  /**
   * A fallback that fails without a diagnostic of its own still leaves one
   * in the `validation` entry: the check's, which survives stripping.
   */
  lemma FallbackDiagnosticKept(check: Outcome, fallback: Outcome)
    requires FallbackTriggered(check) && fallback.Exited? && fallback.code != 0 && fallback.stderr == []
    ensures ValidationOf(CheckResult(check, fallback)).stderr != []
  {
    var k: nat :| IsAt(check.stderr, AmbiguousCheck, k);
    assert check.stderr[k] == check.stderr[k..k + |AmbiguousCheck|][0] == 'o';
    BlankIffStripEmpty(check.stderr);
    BlankIffAllSpace(check.stderr);
  }

  /** The message a check result adds to the error log, if any. */
  function CheckMessages(res: Outcome): (m: seq<string>)
    ensures |m| <= 1
    ensures m == [] <==> res.Exited? && res.code == 0
  {
    match res
    case NotFound => [CheckNotFoundMessage]
    case Exited(code, _, _, _) => if code == 0 then [] else [CheckFailedMessage]
  }

  /** The validate stage given what the check reports (`CheckResult`); blank code is never checked. */
  function ValidateUpdate(s: GenState, res: Outcome): (r: GenState)
    ensures r.errors.Some?
    ensures |Errors(s)| <= |r.errors.value| <= |Errors(s)| + 1
    ensures r.errors.value[..|Errors(s)|] == Errors(s)
    ensures r.validation.None? <==> IsBlank(Code(s))
    ensures r.validation.Some? ==> r.validation.value == ValidationOf(res)
    ensures |r.errors.value| == |Errors(s)| <==> r.validation.Some? && r.validation.value.status == CheckPassed
  {
    var errors := Errors(s);
    if IsBlank(Code(s)) then
      Empty.(errors := Some(errors + [EmptyCodeMessage]))
    else
      Empty.(validation := Some(ValidationOf(res)), errors := Some(errors + CheckMessages(res)))
  }

  /** The message validation appends, by what happened. */
  lemma ValidateMessages(s: GenState, res: Outcome)
    ensures var r := ValidateUpdate(s, res);
      && (IsBlank(Code(s)) ==> r.errors.value == Errors(s) + [EmptyCodeMessage])
      && (!IsBlank(Code(s)) && res.NotFound? ==> r.errors.value == Errors(s) + [CheckNotFoundMessage])
      && (!IsBlank(Code(s)) && res.Exited? && res.code != 0 ==> r.errors.value == Errors(s) + [CheckFailedMessage])
  {
  }

  /**
   * The validate stage: writes the code to a fresh `.scad` file, runs the
   * check on it and removes the file again; blank code is reported without
   * calling the compiler.
   */
  method Validate(ws: Sandbox, s: GenState, check: Outcome, fallback: Outcome) returns (u: GenState)
    requires ws.Valid()
    modifies ws
    ensures ws.Valid()
    ensures u == ValidateUpdate(s, CheckResult(check, fallback))
    ensures ws.files == old(ws.files) && ws.dirs == old(ws.dirs)
    ensures IsBlank(Code(s)) ==> ws.attempts == old(ws.attempts)
    ensures !IsBlank(Code(s)) ==>
      && |ws.attempts| > |old(ws.attempts)|
      && ws.attempts[..|old(ws.attempts)|] == old(ws.attempts)
      && ws.attempts[|old(ws.attempts)|].CheckRun?
      && ws.attempts[|old(ws.attempts)|].source.TempPath?
      && ws.attempts[|old(ws.attempts)|].source.suffix == ".scad"
      && ws.attempts[|old(ws.attempts)|].source !in old(ws.files)
  {
    var errors := Errors(s);
    var code := Code(s);
    if IsBlank(code) {
      errors := errors + [EmptyCodeMessage];
      return Empty.(errors := Some(errors));
    }
    ghost var before := ws.attempts;
    var scad := ws.NewTempFile(".scad");
    var res := RunOpenscadCheck(ws, scad, check, fallback);
    var validation := ValidationOf(res);
    errors := errors + CheckMessages(res);
    ws.Unlink(scad);
    assert ws.attempts[..|before|] == ws.attempts[..|before| + 1][..|before|];
    u := Empty.(validation := Some(validation), errors := Some(errors));
  }

  // ----- export -----

  const SkipMessage := "STL export skipped because validation did not pass."
  const NoCodeMessage := "No OpenSCAD code available for STL export."
  const ExportNotFoundMessage := "OpenSCAD CLI not found during export. Install it or set OPENSCAD_PATH."
  const ExportFailedMessage := "OpenSCAD export failed; check stderr for details."

  /** The directory exports go to: the configured one, or `outputs` when none (or an empty one) is set. */
  function ExportDir(outputDir: Option<string>): (d: string)
    ensures d != []
    ensures outputDir.Some? && outputDir.value != [] ==> d == outputDir.value
  {
    if outputDir.Some? && outputDir.value != [] then outputDir.value else "outputs"
  }

  predicate ValidationPassed(s: GenState) {
    s.validation.Some? && s.validation.value.status == CheckPassed
  }

  /** The export stage calls the compiler: validation passed and there is code. */
  predicate ExportAttempted(s: GenState) {
    ValidationPassed(s) && !IsBlank(Code(s))
  }

  /** The `export` entry for an export run. */
  function ExportInfoOf(run: Outcome): (e: ExportInfo)
    ensures e.status == ExportSucceeded <==> run.Exited? && run.code == 0
    ensures e.status == ExportMissing <==> run.NotFound?
    ensures IsStripped(e.stderr) && (e.stdout.Some? ==> IsStripped(e.stdout.value))
    ensures run.Exited? ==> e.stdout == Some(Strip(run.stdout)) && e.stderr == Strip(run.stderr)
    ensures run.NotFound? ==> e.stdout.None? && e.stderr == []
  {
    match run
    case NotFound => ExportInfo(ExportMissing, None, "")
    case Exited(code, out, err, _) =>
      ExportInfo(if code == 0 then ExportSucceeded else ExportFailed, Some(Strip(out)), Strip(err))
  }

  /** The message an export run adds to the error log, if any. */
  function ExportMessages(run: Outcome): (m: seq<string>)
    ensures |m| <= 1
    ensures m == [] <==> run.Exited? && run.code == 0
    ensures run.NotFound? ==> m == [ExportNotFoundMessage]
    ensures run.Exited? && run.code != 0 ==> m == [ExportFailedMessage]
  {
    match run
    case NotFound => [ExportNotFoundMessage]
    case Exited(code, _, _, _) => if code == 0 then [] else [ExportFailedMessage]
  }

  /** The export stage given the export run's outcome and the chosen destination. */
  function ExportUpdate(s: GenState, run: Outcome, dest: Path): (r: GenState)
    ensures !ValidationPassed(s) ==> r == Empty.(errors := Some(Errors(s) + [SkipMessage]))
    ensures ValidationPassed(s) && IsBlank(Code(s)) ==> r == Empty.(errors := Some(Errors(s) + [NoCodeMessage]))
    ensures r.exported.Some? <==> ExportAttempted(s)
    ensures r.stlPath.Some? <==> ExportAttempted(s) && run.Exited? && run.code == 0
    ensures r.stlPath.Some? ==> r.stlPath.value == dest && r.exported.value.status == ExportSucceeded
    ensures ExportAttempted(s) ==> r.exported == Some(ExportInfoOf(run)) && r.errors == Some(Errors(s) + ExportMessages(run))
  {
    var errors := Errors(s);
    if !ValidationPassed(s) then Empty.(errors := Some(errors + [SkipMessage]))
    else if IsBlank(Code(s)) then Empty.(errors := Some(errors + [NoCodeMessage]))
    else
      Empty.(exported := Some(ExportInfoOf(run)),
             stlPath := if run.Exited? && run.code == 0 then Some(dest) else None,
             errors := Some(errors + ExportMessages(run)))
  }

  /**
   * Export keeps the previous error log as a prefix and appends exactly one
   * message unless it produced an STL path.
   */
  lemma ExportErrors(s: GenState, run: Outcome, dest: Path)
    ensures var r := ExportUpdate(s, run, dest);
      && r.errors.Some?
      && |r.errors.value| == |Errors(s)| + (if r.stlPath.Some? then 0 else 1)
      && r.errors.value[..|Errors(s)|] == Errors(s)
  {
  }

  /**
   * The compiler call of the export stage: makes `dir`, writes the code to a
   * fresh `.scad` file, exports it to a fresh destination `dest` in `dir`,
   * and removes the `.scad` file, and the destination too unless the export
   * exited with 0.
   */
  method ExportFiles(ws: Sandbox, dir: string, run: Outcome) returns (dest: Path)
    requires ws.Valid()
    modifies ws
    ensures ws.Valid()
    ensures dest == OutputPath(dir, dest.id) && dest !in old(ws.files)
    ensures ws.dirs == old(ws.dirs) + {dir}
    ensures ws.files == old(ws.files) + (if run.Exited? && run.code == 0 && run.wroteOutput then {dest} else {})
    ensures |ws.attempts| == |old(ws.attempts)| + 1
    ensures ws.attempts[..|old(ws.attempts)|] == old(ws.attempts)
    ensures ws.attempts[|old(ws.attempts)|].ExportRun?
    ensures ws.attempts[|old(ws.attempts)|].dest == dest
    ensures ws.attempts[|old(ws.attempts)|].source.TempPath?
    ensures ws.attempts[|old(ws.attempts)|].source.suffix == ".scad"
    ensures ws.attempts[|old(ws.attempts)|].source !in old(ws.files)
  {
    ws.MakeDirs(dir);
    ghost var files0 := ws.files;
    var scad := ws.NewTempFile(".scad");
    dest := ws.NewOutputPath(dir);
    ghost var before := ws.attempts;
    ghost var written := WrittenBy(ExportRun(dest, scad), run);
    ws.Run(ExportRun(dest, scad), run);
    ws.Unlink(scad);
    assert ws.files == files0 + written;
    if !(run.Exited? && run.code == 0) {
      ws.Unlink(dest);
      assert ws.files == files0;
    }
    assert ws.attempts[..|before|] == before;
  }

  /**
   * The export stage: when validation passed and there is code, exports it
   * to a fresh destination `dest` in the export directory (see
   * `ExportFiles`); otherwise only reports why it did not.
   */
  method Export(ws: Sandbox, s: GenState, run: Outcome, outputDir: Option<string>) returns (u: GenState, ghost dest: Path)
    requires ws.Valid()
    modifies ws
    ensures ws.Valid()
    ensures u == ExportUpdate(s, run, dest)
    ensures !ExportAttempted(s) ==>
      ws.files == old(ws.files) && ws.dirs == old(ws.dirs) && ws.attempts == old(ws.attempts)
    ensures ExportAttempted(s) ==>
      && dest == OutputPath(ExportDir(outputDir), dest.id) && dest !in old(ws.files)
      && ws.dirs == old(ws.dirs) + {ExportDir(outputDir)}
      && ws.files == old(ws.files) + (if run.Exited? && run.code == 0 && run.wroteOutput then {dest} else {})
    ensures ExportAttempted(s) ==>
      && |ws.attempts| == |old(ws.attempts)| + 1
      && ws.attempts[..|old(ws.attempts)|] == old(ws.attempts)
      && ws.attempts[|old(ws.attempts)|].ExportRun?
      && ws.attempts[|old(ws.attempts)|].dest == dest
      && ws.attempts[|old(ws.attempts)|].source.TempPath?
      && ws.attempts[|old(ws.attempts)|].source.suffix == ".scad"
      && ws.attempts[|old(ws.attempts)|].source !in old(ws.files)
  {
    dest := OutputPath(ExportDir(outputDir), 0);
    var errors := Errors(s);
    if !ValidationPassed(s) {
      errors := errors + [SkipMessage];
      return Empty.(errors := Some(errors)), dest;
    }
    var code := Code(s);
    if IsBlank(code) {
      errors := errors + [NoCodeMessage];
      return Empty.(errors := Some(errors)), dest;
    }
    var stl := ExportFiles(ws, ExportDir(outputDir), run);
    dest := stl;
    var succeeded := run.Exited? && run.code == 0;
    errors := errors + ExportMessages(run);
    u := Empty.(exported := Some(ExportInfoOf(run)),
                stlPath := if succeeded then Some(stl) else None,
                errors := Some(errors));
  }

  // ----- which keys each stage writes -----

  /** Validate always writes errors, and nothing but errors and validation. */
  lemma ValidateKeys(s: GenState, res: Outcome)
    ensures HasKey(ValidateUpdate(s, res), ErrorsKey)
    ensures KeysWithin(ValidateUpdate(s, res), {ValidationKey, ErrorsKey})
  {
  }

  /** Export always writes errors, and nothing but errors, export and stl_path. */
  lemma ExportKeys(s: GenState, run: Outcome, dest: Path)
    ensures HasKey(ExportUpdate(s, run, dest), ErrorsKey)
    ensures KeysWithin(ExportUpdate(s, run, dest), {ErrorsKey, ExportKey, StlPathKey})
  {
  }
}
