/**
 * The part of the file system the generation stages touch, and the log of
 * compiler invocations they make. Temporary files and export destinations
 * get fresh names from a counter; the compiler itself is an oracle whose
 * outcome is passed in.
 */
module Workspace {

  /** A file the stages name: a temporary file with its suffix, or an export destination in a directory. */
  datatype Path =
    | TempPath(id: nat, suffix: string)
    | OutputPath(dir: string, id: nat)

  /** One compiler invocation: `--check src`, or `-o dest src`. */
  datatype Invocation =
    | CheckRun(source: Path)
    | ExportRun(dest: Path, source: Path)

  /**
   * What a compiler invocation did: the executable was not found, or it
   * exited with a code and captured output, having written its `-o`
   * destination or not.
   */
  datatype Outcome =
    | NotFound
    | Exited(code: int, stdout: string, stderr: string, wroteOutput: bool)

  class Sandbox {
    /** The files that exist. */
    var files: set<Path>
    /** The directories that exist. */
    var dirs: set<string>
    /** Every compiler invocation made so far, oldest first. */
    var attempts: seq<Invocation>
    /** The next unused file name number. */
    var nextId: nat

    /** No existing file carries a number at or beyond the counter. */
    ghost predicate Valid()
      reads this
    {
      forall p :: p in files ==> p.id < nextId
    }

    constructor(files0: set<Path>, dirs0: set<string>)
      ensures Valid()
      ensures files == files0 && dirs == dirs0 && attempts == []
    {
      files := files0;
      dirs := dirs0;
      attempts := [];
      var top: nat := 0;
      var rest := files0;
      while rest != {}
        invariant rest <= files0
        invariant forall p :: p in files0 - rest ==> p.id < top
        decreases rest
      {
        var p :| p in rest;
        if top <= p.id { top := p.id + 1; }
        rest := rest - {p};
      }
      nextId := top;
    }

    /** `tempfile.NamedTemporaryFile(suffix=..., delete=False)`: creates a new, empty file. */
    method NewTempFile(suffix: string) returns (p: Path)
      requires Valid()
      modifies this
      ensures Valid()
      ensures p == TempPath(p.id, suffix) && p !in old(files)
      ensures files == old(files) + {p}
      ensures dirs == old(dirs) && attempts == old(attempts)
    {
      p := TempPath(nextId, suffix);
      files := files + {p};
      nextId := nextId + 1;
    }

    /** A fresh destination name in `dir`; the file itself is not created. */
    method NewOutputPath(dir: string) returns (p: Path)
      requires Valid()
      modifies this
      ensures Valid()
      ensures p == OutputPath(dir, p.id) && p !in files && p.id < nextId
      ensures files == old(files) && dirs == old(dirs) && attempts == old(attempts)
    {
      p := OutputPath(dir, nextId);
      nextId := nextId + 1;
    }

    /** `Path.unlink(missing_ok=True)`: the file is gone afterwards whether or not it existed. */
    method Unlink(p: Path)
      requires Valid()
      modifies this
      ensures Valid()
      ensures files == old(files) - {p}
      ensures dirs == old(dirs) && attempts == old(attempts) && nextId == old(nextId)
    {
      files := files - {p};
    }

    /** `mkdir(parents=True, exist_ok=True)`. */
    method MakeDirs(dir: string)
      requires Valid()
      modifies this
      ensures Valid()
      ensures dirs == old(dirs) + {dir}
      ensures files == old(files) && attempts == old(attempts) && nextId == old(nextId)
    {
      dirs := dirs + {dir};
    }

    /**
     * Runs the compiler with the given outcome: the invocation is logged,
     * and an export that ran and wrote its output leaves its destination.
     */
    method Run(inv: Invocation, outcome: Outcome)
      requires Valid()
      requires inv.ExportRun? ==> inv.dest.id < nextId
      modifies this
      ensures Valid()
      ensures attempts == old(attempts) + [inv]
      ensures files == old(files) + WrittenBy(inv, outcome)
      ensures dirs == old(dirs) && nextId == old(nextId)
    {
      attempts := attempts + [inv];
      files := files + WrittenBy(inv, outcome);
    }
  }

  /** The file an invocation leaves behind: an export's destination, when it wrote it. */
  function WrittenBy(inv: Invocation, outcome: Outcome): (r: set<Path>)
    ensures r <= (if inv.ExportRun? then {inv.dest} else {})
    ensures r != {} <==> inv.ExportRun? && outcome.Exited? && outcome.wroteOutput
  {
    if inv.ExportRun? && outcome.Exited? && outcome.wroteOutput then {inv.dest} else {}
  }
}
