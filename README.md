# Idea2Solid generation pipeline in Dafny

Idea2Solid turns a natural-language request into OpenSCAD source and, when
that source compiles, into an STL mesh. The pipeline runs five stages in a
fixed order:

1. **ingest**: reject a missing or blank request, keep it stripped.
2. **retrieve**: look up similar exemplar snippets and render them into a context text.
3. **synthesize**: build the prompt, take the model's reply, strip the markdown fence, run the guardrails.
4. **validate**: run the OpenSCAD compiler in `--check` mode. When a build reports that flag as ambiguous, fall back to one throw-away export.
5. **export**: gated on a passed validation; write the STL to a fresh name in the output directory.

This project models that pipeline and the helpers around it. It also
models the snippet corpus loader and serialiser, the standalone retrieval
graph, the tracing configuration builders and the API server's CORS
origin parser. It proves the behaviour each of them promises.

Modules, one per file:

- `Wrappers` (`wrappers.dfy`): `Option` and `Result`.
- `Text` (`text.dfy`): Python's string operations as the code uses them.
  - `str.strip` / `lstrip` / `rstrip`, over the same whitespace class as `str.isspace` and the regex `\s`.
  - `in`, `str.find`, `sep.join`, `str.split` on one character.
  - `str.lower` and `str.replace` on one character.
  - `str(n)`.
- `Documents` (`documents.dfy`):
  - the stored document and its metadata values;
  - the retrieved snippet;
  - `_extract_code`, which is one definition here because the code in `pipeline.py` and `retrieval_graph.py` is identical;
  - `_format_snippet`.
- `SnippetLoader` (`snippet_loader.dfy`):
  - `SnippetRecord.to_document`, as a method that builds the body line by line;
  - `build_documents`;
  - `load_snippet_corpus`, as a method over an abstract directory listing. The listing is a sequence of entries, each with a name, its text and what the JSON parser made of that text.
- `Synthesis` (`synthesis.dfy`):
  - `_build_prompt`;
  - `_normalize_code`, a scanner for the leftmost match of the fence regex, followed by a strip;
  - `_apply_guardrails`, with `module\s+main\s*\(` written out as a predicate.
- `Workspace` (`workspace.dfy`): the file system the compiler stages touch, as a class. Its state is:
  - the existing files and directories;
  - the log of compiler invocations;
  - a counter that gives every temporary file or destination a fresh name.
- `State` (`state.dfy`):
  - the generation state, with every key optional;
  - the per-key merge;
  - ingest;
  - retrieve, as a loop method specified by a function;
  - synthesize.
- `Compiler` (`compiler.dfy`): `_run_openscad_check`, `_validate` and `_export`. Each is a method on the workspace, specified by a function that gives the stage's state update.
- `Pipeline` (`pipeline.dfy`): the whole run in the fixed order, as a function `Generate`. `Invoke` runs it on the workspace.
- `RetrievalGraph` (`retrieval_graph.dfy`): `retrieve_snippets`.
- `Tracing` (`tracing.dfy`): `build_run_config` and `langsmith_enabled`.
- `Server` (`server.dfy`): `_allowed_origins`.

The outside world becomes parameters of the model:

- the vector store's result list;
- the model's reply text;
- what each compiler invocation did: the executable was not found, or it exited with a code, stdout and stderr, having written its output file or not;
- the chosen export destination;
- the environment settings;
- the rendering of a score as text.

Behaviour of the code worth noting:

- When the compiler executable is missing, validation reports `missing`. Export is then skipped by its own gate, because the status is not `passed`. So the final state has no `export` entry and one "skipped" message, not an export status of `missing` (`Pipeline.GenerateWithoutCompiler`).
- The error log is not concatenated by the state merge. Merging overwrites every key a stage returns, just as it does for every other key.
  - Validate and export copy the previous log and append to it.
  - Synthesize writes a fresh log holding only the guardrail findings (`State.SynthesizeErrors`).
  - The log is still never shortened in a run, because no stage before synthesize writes one.
- Retrieve raises when a result's `parameters` metadata is neither empty nor a mapping, because the code calls `.items()` on it. The model reports this as a failed run (`State.RetrieveUpdate`).

## Model

| member | source | states |
|---|---|---|
| Text.TrimStartSpec | src/idea2solid/pipeline.py:39-41 | `lstrip` removes a prefix made only of whitespace and leaves a result that is empty or starts with a non-space |
| Text.TrimEndSpec | src/idea2solid/pipeline.py:39-41 | `rstrip` removes a suffix made only of whitespace and leaves a result that is empty or ends with a non-space |
| Text.Strip | src/idea2solid/pipeline.py:39-41 | `strip()` returns text with no whitespace at either end, never longer than its input |
| Text.StripSlice | src/idea2solid/pipeline.py:39-41 | the stripped text is a contiguous slice of the input with only whitespace before and after it |
| Text.StripUnique | src/idea2solid/pipeline.py:39-41 | stripping whitespace padding off a stripped middle gives exactly that middle |
| Text.StripIdempotent | src/idea2solid/pipeline.py:342 | stripping twice is stripping once |
| Text.StrippedIsFixed | src/idea2solid/pipeline.py:342 | a text without surrounding whitespace is unchanged by `strip()` |
| Text.StripPadded | src/idea2solid/tracing.py:44 | blank padding around a stripped text disappears under `strip()` |
| Text.BlankIffAllSpace | src/idea2solid/pipeline.py:153 | a text is blank exactly when each of its characters is whitespace |
| Text.BlankIffStripEmpty | src/idea2solid/pipeline.py:153 | `not code.strip()` holds exactly for blank code |
| Text.FindFrom | src/idea2solid/pipeline.py:331-332 | `find` returns the leftmost occurrence at or after the start, or none when there is none |
| Text.Contains | src/idea2solid/pipeline.py:114 | `pat in s` is computed exactly: true iff the pattern occurs at some index |
| Text.StripOfSliceAvoids | src/idea2solid/pipeline.py:339-342 | a stretch holding no occurrence of a pattern holds none once sliced out and stripped |
| Text.Split | src/server.py:57 | `split(",")` gives at least one piece, no piece holds a comma, and the pieces joined with commas are the input |
| Text.SplitUnique | src/server.py:57 | any comma-free pieces that join back to the input are exactly the split |
| Text.SplitAppend | src/server.py:57 | splitting `a + "," + b` splits `a` and `b` independently |
| Text.Lower | src/idea2solid/tracing.py:44 | `lower()` keeps the length and lower-cases each character on its own |
| Text.ReplaceChar | src/idea2solid/snippet_loader.py:72 | `replace("_", " ")` keeps the length and swaps exactly the underscores |
| Text.NatToString | src/idea2solid/pipeline.py:74 | a block number renders as at least one decimal digit |
| Text.NatToStringRoundTrip | src/idea2solid/pipeline.py:74 | reading a rendered number back gives the number |
| Text.NatToStringInjective | src/idea2solid/pipeline.py:74 | distinct block numbers render differently |
| Documents.Get | src/idea2solid/pipeline.py:61-66 | `metadata.get(key)` is present exactly for a key of the mapping, with its value |
| Documents.ExtractCode | src/idea2solid/pipeline.py:329-333 | without the marker the text is returned whole; otherwise the text after the marker's first occurrence |
| Documents.FormatSnippet | src/idea2solid/retrieval_graph.py:19-30 | each of the six fields is `metadata.get` of its key (so all absent when the metadata is empty), the score is copied and the code extracted |
| Documents.Snippets | src/idea2solid/pipeline.py:56-70 | one snippet per result in the store's order, each score copied and each code extracted |
| SnippetLoader.ToDocument | src/idea2solid/snippet_loader.py:24-46 | the loop builds the `"\n"`-join of the title, summary, `Parameters:`, one line per parameter in order, the marker line and the code |
| SnippetLoader.MetadataLayout | src/idea2solid/snippet_loader.py:27-34 | the metadata has exactly the six keys, each holding the record's field |
| SnippetLoader.ContentSplit | src/idea2solid/snippet_loader.py:35-46 | the body is the header lines, then `OpenSCAD Code:\n`, then the code verbatim |
| SnippetLoader.RoundTrip | src/idea2solid/snippet_loader.py:42-46 | extracting the code from a record's document gives back its code, when the marker does not occur earlier |
| SnippetLoader.RetrievedRecord | src/idea2solid/retrieval_graph.py:19-30 | a stored record comes back from formatting with its six fields, the score and its own code |
| SnippetLoader.BuildDocuments | src/idea2solid/snippet_loader.py:87-89 | one document per record, same length and order |
| SnippetLoader.BuildDocumentsRoundTrip | src/idea2solid/snippet_loader.py:87-89 | every built document gives back its record's code |
| SnippetLoader.Lookup | src/idea2solid/snippet_loader.py:61-62 | the sibling file is absent iff no entry has its name; otherwise the text of an entry with that name |
| SnippetLoader.InsertPermutes | src/idea2solid/snippet_loader.py:56 | inserting one entry adds exactly that entry |
| SnippetLoader.InsertKeepsBound | src/idea2solid/snippet_loader.py:56 | insertion keeps a lower bound on the names |
| SnippetLoader.InsertSorted | src/idea2solid/snippet_loader.py:56 | insertion into a name-sorted list keeps it sorted |
| SnippetLoader.SortByNameSpec | src/idea2solid/snippet_loader.py:56 | `sorted` yields the same entries, each as often, in name order |
| SnippetLoader.JsonEntries | src/idea2solid/snippet_loader.py:56 | the glob keeps every `.json` entry exactly as often as listed and nothing else |
| SnippetLoader.MetadataFiles | src/idea2solid/snippet_loader.py:56 | every listed metadata file is a `.json` file |
| SnippetLoader.MetadataFilesSorted | src/idea2solid/snippet_loader.py:56 | the metadata files are sorted by name and are exactly the directory's `.json` entries |
| SnippetLoader.RecordFor | src/idea2solid/snippet_loader.py:60-78 | building a record fails exactly when the sibling `.scad` file is missing |
| SnippetLoader.RecordFields | src/idea2solid/snippet_loader.py:60-78 | a missing source is reported under the identifier; otherwise the record has the stripped title (default: identifier with `_` as space), the defaulted fields and the source text |
| SnippetLoader.IdentifierRule | src/idea2solid/snippet_loader.py:60 | the identifier is a non-empty `id`, else the non-empty file stem |
| SnippetLoader.Outcomes | src/idea2solid/snippet_loader.py:56-79 | one record outcome per metadata file, in sorted order |
| SnippetLoader.CollectSticks | src/idea2solid/snippet_loader.py:62-65 | once a file fails, the load fails with that error |
| SnippetLoader.CollectSuccess | src/idea2solid/snippet_loader.py:55-79 | collecting succeeds iff every outcome does, giving their records in order |
| SnippetLoader.CollectFailure | src/idea2solid/snippet_loader.py:62-65 | a failing collection reports its first failure |
| SnippetLoader.LoadEmpty | src/idea2solid/snippet_loader.py:52-53 | a missing directory and one without metadata files raise their own errors; otherwise the load succeeds or reports a missing source |
| SnippetLoader.LoadSucceeds | src/idea2solid/snippet_loader.py:55-84 | loading succeeds iff there are metadata files and each has its source, with one record per file in sorted order |
| SnippetLoader.LoadReportsFirst | src/idea2solid/snippet_loader.py:61-65 | a failed load names the first metadata file, in sorted order, without its source |
| SnippetLoader.LoadSnippetCorpus | src/idea2solid/snippet_loader.py:49-84 | the loop appends one record per sorted metadata file and returns what `Load` specifies |
| Synthesis.PromptLayout | src/idea2solid/pipeline.py:94-107 | the prompt is the rule set, the request verbatim, the context verbatim and the closing cue, at fixed offsets |
| Synthesis.FenceAt | src/idea2solid/pipeline.py:339 | at one start position the fence pattern matches at most once, with the shortest body |
| Synthesis.FenceAtComplete | src/idea2solid/pipeline.py:339 | every match of the pattern at a position is found there |
| Synthesis.FirstFence | src/idea2solid/pipeline.py:339 | the search returns the leftmost match, or none when there is none |
| Synthesis.NormalizeCode | src/idea2solid/pipeline.py:336-342 | the normalized code has no surrounding whitespace |
| Synthesis.NormalizeCodeFences | src/idea2solid/pipeline.py:339-342 | without a fence the reply is stripped; with one, the leftmost match's body is stripped and holds no fence |
| Synthesis.FenceBodyHasNoFence | src/idea2solid/pipeline.py:339 | a captured body, stripped, holds no fence |
| Synthesis.StripKeepsNoFence | src/idea2solid/pipeline.py:342 | stripping cannot create a fenced block |
| Synthesis.NormalizeFixed | src/idea2solid/pipeline.py:336-342 | stripped text without a fence is left as it is |
| Synthesis.NormalizeIdempotent | src/idea2solid/pipeline.py:336-342 | normalizing twice is normalizing once |
| Synthesis.MainAt | src/idea2solid/pipeline.py:112 | the scanner matches `module\s+main\s*\(` at a position exactly when the pattern does |
| Synthesis.SearchMain | src/idea2solid/pipeline.py:112 | the search succeeds exactly when the pattern matches at or after the start |
| Synthesis.ApplyGuardrails | src/idea2solid/pipeline.py:110-116 | at most two findings |
| Synthesis.GuardrailFindings | src/idea2solid/pipeline.py:110-116 | both checks run: the `module main()` message iff no match, then the `import()` message iff it occurs; empty iff both pass |
| Workspace.Sandbox.NewTempFile | src/idea2solid/pipeline.py:157-159 | a temporary file is created with the suffix under a name not used before; nothing else changes |
| Workspace.Sandbox.NewOutputPath | src/idea2solid/pipeline.py:205-206 | the destination gets a fresh name in the export directory; no file is created |
| Workspace.Sandbox.Unlink | src/idea2solid/pipeline.py:175 | `unlink(missing_ok=True)` leaves the file absent whether or not it existed |
| Workspace.Sandbox.MakeDirs | src/idea2solid/pipeline.py:199 | the directory exists afterwards; files are untouched |
| Workspace.Sandbox.Run | src/idea2solid/pipeline.py:209-214 | the invocation is logged; only an export that wrote its output adds its destination |
| Workspace.WrittenBy | src/idea2solid/pipeline.py:209-214 | only an export run leaves a file, its destination, and only when it wrote it |
| State.Merge | src/idea2solid/pipeline.py:311-316 | for each of the nine keys, a value the stage returns replaces the old one and an absent one keeps it, the error log included |
| State.MergeKeys | src/idea2solid/pipeline.py:18-29 | a merged state holds exactly the keys of either side |
| State.MergeLaws | src/idea2solid/pipeline.py:311-316 | an empty update changes nothing; merging updates in turn is merging their merge |
| State.Ingest | src/idea2solid/pipeline.py:37-41 | fails with the message iff the question is missing or blank; otherwise exactly the stripped question, which is non-empty |
| State.IngestIgnoresPadding | src/idea2solid/pipeline.py:39-41 | surrounding whitespace never changes what ingest keeps |
| State.ParameterItems | src/idea2solid/pipeline.py:80 | an absent or empty value lists nothing, a mapping lists its pairs, and it fails exactly for a non-empty string or list |
| State.PipelineBlockEnds | src/idea2solid/pipeline.py:71-86 | a context block opens with `Snippet i: <title>` and a newline and ends with the code |
| State.PipelineBlocks | src/idea2solid/pipeline.py:71-86 | one block per result |
| State.RetrieveUpdate | src/idea2solid/pipeline.py:44-91 | retrieve succeeds iff every result's parameters can be listed, and then writes snippets and context |
| State.Retrieve | src/idea2solid/pipeline.py:44-91 | the loop appends one snippet and one block per result and returns what `RetrieveUpdate` specifies |
| State.RetrieveShape | src/idea2solid/pipeline.py:56-91 | the snippets are the results in order; block i opens with its 1-based header |
| State.Synthesize | src/idea2solid/pipeline.py:119-143 | the prompt is built from the question and context, and the code is the normalized reply |
| State.SynthesizeErrors | src/idea2solid/pipeline.py:141-143 | the previous log is discarded; the new one is empty iff the stripped code passes both guardrails |
| State.RetrieveKeys | src/idea2solid/pipeline.py:88-91 | retrieve writes exactly snippets and context |
| State.SynthesizeKeys | src/idea2solid/pipeline.py:143 | synthesize writes exactly prompt, code and errors |
| Compiler.CheckResult | src/idea2solid/pipeline.py:242-272 | without the ambiguous-flag failure the check result is returned untouched; otherwise the fallback's, with its empty stderr replaced on failure |
| Compiler.RunOpenscadCheck | src/idea2solid/pipeline.py:242-272 | one check run, plus exactly one fallback export iff triggered, whose throw-away STL is removed; no file is left behind |
| Compiler.ValidationOf | src/idea2solid/pipeline.py:161-171 | status `passed` iff exit 0, `missing` iff the executable is absent; stdout and stderr are the run's, stripped; a missing executable has no stdout and an empty stderr |
| Compiler.FallbackDiagnosticKept | src/idea2solid/pipeline.py:253-270 | a fallback that fails without stderr still leaves a non-empty stderr in the `validation` entry |
| Compiler.CheckMessages | src/idea2solid/pipeline.py:163-173 | a message is added exactly when the check did not pass |
| Compiler.ValidateUpdate | src/idea2solid/pipeline.py:146-177 | the old log is a prefix with at most one message added; no `validation` key iff the code is blank; nothing added iff passed |
| Compiler.ValidateMessages | src/idea2solid/pipeline.py:151-173 | the appended message names what happened: blank code, executable missing, or check failed |
| Compiler.Validate | src/idea2solid/pipeline.py:146-177 | blank code makes no compiler call; otherwise the temporary source is removed on every path and the update is `ValidateUpdate` |
| Compiler.ExportDir | src/idea2solid/pipeline.py:198 | the configured directory when non-empty, else `outputs` |
| Compiler.ExportInfoOf | src/idea2solid/pipeline.py:215-228 | status `success` iff exit 0, `missing` iff the executable is absent; stdout and stderr are the run's, stripped; a missing executable has no stdout and an empty stderr |
| Compiler.ExportMessages | src/idea2solid/pipeline.py:215-233 | no message on exit 0, the not-found message for a missing executable, the failed message for a non-zero exit |
| Compiler.ExportUpdate | src/idea2solid/pipeline.py:180-239 | gated on `passed` and non-blank code, else exactly one message; when attempted, the `export` entry is the run's and the log gains its message; an STL path appears only on exit 0, and it is the destination |
| Compiler.ExportErrors | src/idea2solid/pipeline.py:186-239 | the old log is a prefix, with one message added unless an STL path results |
| Compiler.ExportFiles | src/idea2solid/pipeline.py:198-233 | the directory exists; the temporary source is removed; the destination survives only on exit 0 with output written |
| Compiler.Export | src/idea2solid/pipeline.py:180-239 | a gated export touches nothing; otherwise one export run with a fresh destination, and the update is `ExportUpdate` |
| Compiler.ValidateKeys | src/idea2solid/pipeline.py:155-177 | validate always writes errors, and writes nothing but errors and validation |
| Compiler.ExportKeys | src/idea2solid/pipeline.py:186-239 | export always writes errors, and writes nothing but errors, export and stl_path |
| Pipeline.Synthesized | src/idea2solid/pipeline.py:311-314 | after synthesize the state holds the normalized code and the guardrail findings, and nothing from validation or export |
| Pipeline.GenerateUnfold | src/idea2solid/pipeline.py:311-316 | a successful run had a non-blank question and listable parameters, and is the synthesized state carried through validate and export |
| Pipeline.GenerateFails | src/idea2solid/pipeline.py:37-91 | a run fails exactly when ingest or retrieve raises |
| Pipeline.SynthesizedFields | src/idea2solid/pipeline.py:119-143 | the synthesized state holds the stripped question, the snippets and the prompt built from them |
| Pipeline.GenerateFields | src/idea2solid/pipeline.py:311-316 | a successful run ends with the stripped question, the snippets, the prompt and the normalized code |
| Pipeline.TailKeeps | src/idea2solid/pipeline.py:146-239 | validate and export leave question, snippets, context, prompt and code as they were |
| Pipeline.TailGate | src/idea2solid/pipeline.py:189-239 | an STL path appears iff the check passed on non-blank code and the export exited with 0; the path is the destination |
| Pipeline.TailErrors | src/idea2solid/pipeline.py:152-239 | the log is kept as a prefix, at most two messages are added, and none exactly when an STL path results |
| Pipeline.TailWithoutCompiler | src/idea2solid/pipeline.py:163-191 | a missing executable gives status `missing`, no export entry, and the not-found and skipped messages |
| Pipeline.TailBlankCode | src/idea2solid/pipeline.py:153-191 | blank code gives no validation, no export, and the empty-code and skipped messages |
| Pipeline.GenerateGate | src/idea2solid/pipeline.py:189-239 | over a whole run, an STL path appears iff the code is non-blank, the check passed and the export exited with 0 |
| Pipeline.GenerateErrors | src/idea2solid/pipeline.py:141-239 | a run's log is the guardrail findings plus at most two messages, and nothing more iff an STL path results |
| Pipeline.GenerateWithoutCompiler | src/idea2solid/pipeline.py:163-191 | without the executable the run ends with status `missing`, no export entry and no STL path |
| Pipeline.GenerateBlankCode | src/idea2solid/pipeline.py:153-196 | blank generated code ends the run without validation, export or STL path |
| Pipeline.CheckAndExport | src/idea2solid/pipeline.py:146-239 | no temporary file survives; the destination survives only when an STL path is reported |
| Pipeline.Invoke | src/idea2solid/pipeline.py:275-316 | the run equals `Generate`; a failed run touches nothing; a successful one leaves at most the reported STL |
| RetrievalGraph.GraphBlocks | src/idea2solid/retrieval_graph.py:62-72 | one block per result |
| RetrievalGraph.RetrieveSnippets | src/idea2solid/retrieval_graph.py:48-77 | fails iff the question is missing or empty, with no strip; otherwise the formatted snippets and the blocks joined by blank lines |
| RetrievalGraph.RetrievedShape | src/idea2solid/retrieval_graph.py:56-72 | snippet i has result i's score and extracted code; block i opens with its 1-based header and ends with the code |
| RetrievalGraph.GraphBlockEnds | src/idea2solid/retrieval_graph.py:62-72 | a block opens with its header line and ends with the snippet's code |
| Server.Origins | src/server.py:57 | the kept entries are non-empty and stripped, no more than the pieces; one piece is kept stripped, or dropped when blank |
| Server.OriginsAppend | src/server.py:57 | filtering is done entry by entry, in order |
| Server.AllowedOrigins | src/server.py:55-60 | never empty; exactly `*` when any entry is `*`; otherwise the entries in order, or the default when there are none |
| Server.ParsedConcat | src/server.py:56-57 | joining two settings with a comma joins their origin lists |
| Server.OneEntry | src/server.py:57 | a setting without a comma is one entry: its stripped form, or nothing when blank |
| Server.SingleEntry | src/server.py:56-57 | a single stripped entry without a comma parses to itself |
| Server.PaddedEntry | src/server.py:57 | whitespace around an entry is trimmed off |
| Server.BlankEntryDropped | src/server.py:57 | a blank entry between others is dropped and the rest keep their order |
| Server.EntryAnywhere | src/server.py:57 | a stripped entry anywhere in the setting is among the origins |
| Server.StarAnywhere | src/server.py:58-59 | a `*` entry anywhere in the list allows every origin |
| Server.DefaultWhenUnset | src/server.py:56-60 | with the setting unset, only the default origin is allowed |
| Tracing.BuildRunConfig | src/idea2solid/tracing.py:8-38 | tags are the default tag then the caller's; caller metadata wins; `run_name` and `project` are added only when not given; `configurable` holds only `run_name` |
| Tracing.LangsmithEnabled | src/idea2solid/tracing.py:41-44 | an unset setting is off; on means the stripped setting has the length of `true` or `1` |
| Tracing.LowerWords | src/idea2solid/tracing.py:44 | lower-casing gives `true` exactly for the case variants of `true`, and `1` only for `1` |
| Tracing.LangsmithWords | src/idea2solid/tracing.py:44 | tracing is on exactly when the stripped setting is `1` or spells `true` in any mix of cases |
| Tracing.LangsmithReadsStripped | src/idea2solid/tracing.py:44 | the switch depends only on the stripped setting |
| Tracing.LangsmithIgnoresPadding | src/idea2solid/tracing.py:44 | surrounding whitespace never changes the switch |

## Left out

- The call to the language model in `_synthesize` is not modelled. Neither are its client classes and lazy imports. The reply text is a parameter.
- The vector store (`vector_store.py`, FAISS and the embeddings) is not part of this model. Its `similarity_search_with_score` result list is a parameter, so `top_k` does not appear.
- Process execution is not modelled; each compiler invocation's outcome is a parameter. The model does not capture the compiler's timing or the contents of its output file.
- Temporary and `uuid`-based file names are drawn from a counter that only grows. The model captures that names are fresh, not what they look like.
- File contents are not modelled. A file exists or it does not.
- Score formatting with `{score:.4f}` is floating-point text rendering. It is a parameter `formatScore`.
- Metadata values are strings, string-to-string mappings (parameters) or string lists (tags). JSON `null` inside a field, numbers and booleans are not represented. The `repr` of a mapping or list is rendered without Python's quote escaping (`Documents.Display`).
- JSON parsing in `load_snippet_corpus` is not modelled. Each directory entry carries its parsed fields, and a missing field is `None`.
  - The model does not capture malformed JSON or non-UTF-8 text.
  - It does not capture a metadata `title` that is not a string.
- `SnippetLoader.LoadSnippetCorpus`: the three errors are modelled, but other exceptions (`OSError` while reading, `JSONDecodeError`) are not.
- `State.RetrieveUpdate`: the error text for a `parameters` value without `.items()` is a paraphrase. Python's `AttributeError` names the value's type (`'str' object` or `'list' object has no attribute 'items'`), and the model does not track which type failed first.
- `State.Retrieve` models only the `.items()` failure of the listed exceptions. Errors raised by the vector store or by the model surface as Python exceptions and are not modelled.
- Of the LangGraph wiring, only the fixed stage order and the per-key merge are modelled. `StateGraph`, `compile`, the `config` attribute and the lazy import of `langgraph` are not.
- `build_generation_pipeline` and `build_retrieval_graph` keep their parameters as parameters of `Generate`, `Invoke` and `RetrieveSnippets`.
- `Pipeline.Generate` starts from a state holding only the question, the shape every caller uses.
- Reads of the environment and `load_dotenv` are not modelled. `IDEA2SOLID_MODEL`, `LANGCHAIN_PROJECT`, `LANGCHAIN_TRACING_V2` and `IDEA2SOLID_CORS_ORIGINS` are parameters.
- `Tracing.BuildRunConfig`: metadata values are strings, and Python's dict insertion order is not captured because the mapping is a Dafny `map`.
- `Text.Lower` lowercases ASCII letters only. No non-ASCII character lowercases to a letter of `true`, so `Tracing.LangsmithEnabled` is exact.
- The FastAPI application, its CORS middleware, static mounting, the `generate` handler and `_coerce_jsonable` are not part of this model. The command-line scripts and `__init__.py` are not part of this model either.
