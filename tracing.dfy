/**
 * Run configuration for traced graph runs, and the switch that says whether
 * tracing is on. The environment values are passed in.
 */
module Tracing {
  import opened Wrappers
  import opened Text

  /** The tags every run carries first. */
  const DefaultTags: seq<string> := ["idea2solid"]

  /** The configuration handed to a graph run. */
  datatype RunConfig = RunConfig(tags: seq<string>, metadata: map<string, string>, configurable: map<string, string>)

  /** The project setting counts only when it is set and non-empty. */
  predicate HasProject(project: Option<string>) {
    project.Some? && project.value != []
  }

  /**
   * Builds the run configuration: the default tags then the caller's;
   * metadata starting from `run_name`, updated with the caller's metadata,
   * then given `project` unless the caller already set it.
   */
  method BuildRunConfig(runName: string, tags: Option<seq<string>>, metadata: Option<map<string, string>>,
                        project: Option<string>)
    returns (c: RunConfig)
    ensures c.tags == DefaultTags + tags.GetOr([])
    ensures c.configurable == map["run_name" := runName]
    ensures c.metadata.Keys == {"run_name"} + metadata.GetOr(map[]).Keys + (if HasProject(project) then {"project"} else {})
    ensures forall k :: k in metadata.GetOr(map[]) ==> c.metadata[k] == metadata.value[k]
    ensures "run_name" !in metadata.GetOr(map[]) ==> c.metadata["run_name"] == runName
    ensures "project" !in metadata.GetOr(map[]) && HasProject(project) ==> c.metadata["project"] == project.value
  {
    var mergedTags := DefaultTags + tags.GetOr([]);
    var merged := map["run_name" := runName];
    if metadata.Some? && |metadata.value| > 0 {
      merged := merged + metadata.value;
    }
    if project.Some? && project.value != [] && "project" !in merged {
      merged := merged["project" := project.value];
    }
    c := RunConfig(mergedTags, merged, map["run_name" := runName]);
  }

  /** Tracing is on when the setting, stripped and lower-cased, is `true` or `1`. */
  function LangsmithEnabled(setting: Option<string>): (r: bool)
    ensures setting.None? ==> !r
    ensures r ==> |Strip(setting.value)| == 1 || |Strip(setting.value)| == 4
  {
    var v := Lower(Strip(setting.GetOr("")));
    v == "true" || v == "1"
  }

  /** The switch reads only the stripped setting. */
  lemma LangsmithReadsStripped(x: string, y: string)
    requires Strip(x) == Strip(y)
    ensures LangsmithEnabled(Some(x)) == LangsmithEnabled(Some(y))
  {
  }

  /** Surrounding whitespace never changes the switch. */
  lemma LangsmithIgnoresPadding(a: string, m: string, b: string)
    requires IsBlank(a) && IsBlank(b) && IsStripped(m)
    ensures LangsmithEnabled(Some(a + m + b)) == LangsmithEnabled(Some(m))
  {
    StripPadded(a, m, b);
    LangsmithReadsStripped(a + m + b, m);
  }

  /** The stripped setting spells `true` in any mix of cases. */
  predicate SpellsTrue(v: string) {
    |v| == 4 && v[0] in "tT" && v[1] in "rR" && v[2] in "uU" && v[3] in "eE"
  }

  /** Lower-casing gives `true` exactly for the spellings of `true`, and `1` only for `1`. */
  lemma LowerWords(v: string)
    ensures Lower(v) == "true" <==> SpellsTrue(v)
    ensures Lower(v) == "1" <==> v == "1"
  {
    if |v| == 4 && Lower(v) == "true" {
      assert LowerChar(v[0]) == 't' && LowerChar(v[1]) == 'r' && LowerChar(v[2]) == 'u' && LowerChar(v[3]) == 'e';
    }
    if SpellsTrue(v) {
      assert Lower(v)[0] == 't' && Lower(v)[1] == 'r' && Lower(v)[2] == 'u' && Lower(v)[3] == 'e';
    }
    if |v| == 1 && Lower(v) == "1" {
      assert LowerChar(v[0]) == '1';
    }
  }

  /** Tracing is on exactly when the stripped setting is `1` or spells `true` in any case. */
  lemma LangsmithWords(x: string)
    ensures LangsmithEnabled(Some(x)) <==> Strip(x) == "1" || SpellsTrue(Strip(x))
  {
    LowerWords(Strip(x));
  }
}
