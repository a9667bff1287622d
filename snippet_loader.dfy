/**
 * The snippet repository: records built from paired metadata/source files,
 * and the documents the vector store indexes.
 */
module SnippetLoader {
  import opened Wrappers
  import opened Text
  import opened Documents

  /** One exemplar: its metadata fields and its OpenSCAD source. */
  datatype SnippetRecord = SnippetRecord(
    identifier: string,
    title: string,
    summary: string,
    parameters: seq<(string, string)>,
    tags: seq<string>,
    notes: string,
    code: string)

  /** The lines of a document before its code section. */
  function HeaderLines(r: SnippetRecord): seq<string> {
    ["Title: " + r.title, "Summary: " + r.summary, "Parameters:"] + ParameterLines(r.parameters)
  }

  /** All lines of a document body, in order. */
  function ContentLines(r: SnippetRecord): seq<string> {
    HeaderLines(r) + ["OpenSCAD Code:", r.code]
  }

  /** The metadata mapping stored with a record's document. */
  function MetadataOf(r: SnippetRecord): map<string, MetaValue> {
    map["id" := Str(r.identifier), "title" := Str(r.title), "summary" := Str(r.summary),
        "parameters" := Mapping(r.parameters), "tags" := Items(r.tags), "notes" := Str(r.notes)]
  }

  /** The document a record is turned into. */
  function DocumentOf(r: SnippetRecord): Document {
    Document(Join("\n", ContentLines(r)), MetadataOf(r))
  }

  /** Builds the document body line by line, one line per parameter, and its metadata. */
  method ToDocument(r: SnippetRecord) returns (d: Document)
    ensures d == DocumentOf(r)
    ensures d.pageContent == Join("\n", ContentLines(r))
  {
    var metadata := map["id" := Str(r.identifier), "title" := Str(r.title), "summary" := Str(r.summary),
                        "parameters" := Mapping(r.parameters), "tags" := Items(r.tags), "notes" := Str(r.notes)];
    var parts := ["Title: " + r.title, "Summary: " + r.summary, "Parameters:"];
    var i := 0;
    while i < |r.parameters|
      invariant 0 <= i <= |r.parameters|
      invariant parts == ["Title: " + r.title, "Summary: " + r.summary, "Parameters:"] + ParameterLines(r.parameters[..i])
    {
      var (name, description) := r.parameters[i];
      assert r.parameters[..i + 1] == r.parameters[..i] + [r.parameters[i]];
      parts := parts + ["- " + name + ": " + description];
      i := i + 1;
    }
    assert r.parameters[..i] == r.parameters;
    parts := parts + ["OpenSCAD Code:", r.code];
    d := Document(Join("\n", parts), metadata);
  }

  /** The metadata has exactly the six keys, each holding the record's field. */
  lemma MetadataLayout(r: SnippetRecord)
    ensures DocumentOf(r).metadata.Keys == {"id", "title", "summary", "parameters", "tags", "notes"}
    ensures var m := DocumentOf(r).metadata;
      m["id"] == Str(r.identifier) && m["title"] == Str(r.title) && m["summary"] == Str(r.summary)
      && m["parameters"] == Mapping(r.parameters) && m["tags"] == Items(r.tags) && m["notes"] == Str(r.notes)
  {
  }

  /** The text of a document before its marker line, newline included. */
  function Header(r: SnippetRecord): string {
    Join("\n", HeaderLines(r)) + "\n"
  }

  /** A document body is its header, the marker line and then the code verbatim. */
  lemma ContentSplit(r: SnippetRecord)
    ensures DocumentOf(r).pageContent == Header(r) + CodeMarker + r.code
  {
    JoinAppend("\n", HeaderLines(r), ["OpenSCAD Code:", r.code]);
    assert Join("\n", ["OpenSCAD Code:", r.code]) == "OpenSCAD Code:" + "\n" + Join("\n", [r.code]);
  }

  /** The marker does not appear in the document before its own marker line. */
  ghost predicate MarkerOnlyBeforeCode(r: SnippetRecord) {
    !Occurs(Header(r) + "OpenSCAD Code:", CodeMarker)
  }

  /** Extracting the code from a record's document gives back the record's code. */
  lemma RoundTrip(r: SnippetRecord)
    requires MarkerOnlyBeforeCode(r)
    ensures ExtractCode(DocumentOf(r).pageContent) == r.code
  {
    ContentSplit(r);
    var c := DocumentOf(r).pageContent;
    var h := Header(r);
    var p := h + "OpenSCAD Code:";
    assert c[|h|..|h| + |CodeMarker|] == CodeMarker;
    assert IsAt(c, CodeMarker, |h|);
    assert c[..|p|] == p;
    forall j: nat | j < |h| ensures !IsAt(c, CodeMarker, j) {
      assert !IsAt(p, CodeMarker, j);
      IsAtSlice(c, 0, |p|, CodeMarker, j);
      assert c[0..|p|] == p;
    }
    assert FirstAt(c, CodeMarker, |h|);
    assert c[|h| + |CodeMarker|..] == r.code;
  }

  /** A stored record comes back out of retrieval with its own fields and code. */
  lemma RetrievedRecord(r: SnippetRecord, score: real)
    requires MarkerOnlyBeforeCode(r)
    ensures var s := FormatSnippet(DocumentOf(r), score);
      s.id == Some(Str(r.identifier)) && s.title == Some(Str(r.title)) && s.summary == Some(Str(r.summary))
      && s.parameters == Some(Mapping(r.parameters)) && s.tags == Some(Items(r.tags)) && s.notes == Some(Str(r.notes))
      && s.score == score && s.code == r.code
  {
    RoundTrip(r);
  }

  /** One document per record, in the same order. */
  function BuildDocuments(records: seq<SnippetRecord>): (docs: seq<Document>)
    ensures |docs| == |records|
    ensures forall i :: 0 <= i < |records| ==> docs[i] == DocumentOf(records[i])
  {
    seq(|records|, i requires 0 <= i < |records| => DocumentOf(records[i]))
  }

  /** Every built document gives back its record's code. */
  lemma BuildDocumentsRoundTrip(records: seq<SnippetRecord>, i: nat)
    requires i < |records| && MarkerOnlyBeforeCode(records[i])
    ensures ExtractCode(BuildDocuments(records)[i].pageContent) == records[i].code
  {
    RoundTrip(records[i]);
  }

  // ----- loading a directory -----

  /** The fields of a parsed metadata file; `None` for a key the file does not have. */
  datatype CorpusMeta = CorpusMeta(
    id: Option<string>,
    title: Option<string>,
    summary: Option<string>,
    parameters: Option<seq<(string, string)>>,
    tags: Option<seq<string>>,
    notes: Option<string>)

  /** A file of the snippet directory: its name, its text, and what the JSON parser makes of that text. */
  datatype DirEntry = DirEntry(name: string, text: string, parsed: CorpusMeta)

  datatype LoadError = DirectoryNotFound | MissingSource(identifier: string) | NoRecords

  /** Matched by the glob `*.json`. */
  predicate IsJsonName(name: string) {
    |name| >= 5 && name[|name| - 5..] == ".json"
  }

  /** `Path.stem`: the name without its last suffix; a bare `.json` has no suffix. */
  function Stem(name: string): string
    requires IsJsonName(name)
  {
    if name == ".json" then name else name[..|name| - 5]
  }

  /** `Path.with_suffix(".scad")`. */
  function ScadName(name: string): string
    requires IsJsonName(name)
  {
    Stem(name) + ".scad"
  }

  /** The text of the first file called `name`, if the directory has one. */
  function Lookup(entries: seq<DirEntry>, name: string): (r: Option<string>)
    ensures r.None? <==> forall k :: 0 <= k < |entries| ==> entries[k].name != name
    ensures r.Some? ==> exists k :: 0 <= k < |entries| && entries[k].name == name && entries[k].text == r.value
  {
    if entries == [] then None
    else if entries[0].name == name then Some(entries[0].text)
    else Lookup(entries[1..], name)
  }

  /** Python's `<=` on strings: lexicographic by code point. */
  predicate LexLe(a: string, b: string) {
    if a == [] then true
    else if b == [] then false
    else if a[0] != b[0] then a[0] < b[0]
    else LexLe(a[1..], b[1..])
  }

  lemma {:induction false} LexTotal(a: string, b: string)
    ensures LexLe(a, b) || LexLe(b, a)
  {
    if a != [] && b != [] && a[0] == b[0] { LexTotal(a[1..], b[1..]); }
  }

  lemma {:induction false} LexTrans(a: string, b: string, c: string)
    requires LexLe(a, b) && LexLe(b, c)
    ensures LexLe(a, c)
  {
    if a != [] && b != [] && c != [] && a[0] == b[0] && b[0] == c[0] {
      LexTrans(a[1..], b[1..], c[1..]);
    }
  }

  ghost predicate SortedByName(es: seq<DirEntry>) {
    forall i, j :: 0 <= i < j < |es| ==> LexLe(es[i].name, es[j].name)
  }

  function Insert(e: DirEntry, es: seq<DirEntry>): seq<DirEntry> {
    if es == [] then [e]
    else if LexLe(e.name, es[0].name) then [e] + es
    else [es[0]] + Insert(e, es[1..])
  }

  /** `x` sorts no later than every entry of `es`. */
  ghost predicate LowerBound(x: string, es: seq<DirEntry>) {
    forall j :: 0 <= j < |es| ==> LexLe(x, es[j].name)
  }

  lemma {:induction false} InsertPermutes(e: DirEntry, es: seq<DirEntry>)
    ensures multiset(Insert(e, es)) == multiset(es) + multiset{e}
  {
    if es != [] {
      assert es == [es[0]] + es[1..];
      if !LexLe(e.name, es[0].name) { InsertPermutes(e, es[1..]); }
    }
  }

  lemma {:induction false} InsertKeepsBound(x: string, e: DirEntry, es: seq<DirEntry>)
    requires LowerBound(x, es) && LexLe(x, e.name)
    ensures LowerBound(x, Insert(e, es))
  {
    if es != [] && !LexLe(e.name, es[0].name) { InsertKeepsBound(x, e, es[1..]); }
  }

  lemma {:induction false} InsertSorted(e: DirEntry, es: seq<DirEntry>)
    requires SortedByName(es)
    ensures SortedByName(Insert(e, es))
  {
    if es == [] {
    } else if LexLe(e.name, es[0].name) {
      forall j | 0 <= j < |es| ensures LexLe(e.name, es[j].name) {
        if j > 0 { LexTrans(e.name, es[0].name, es[j].name); }
      }
    } else {
      LexTotal(e.name, es[0].name);
      InsertSorted(e, es[1..]);
      InsertKeepsBound(es[0].name, e, es[1..]);
      var r := Insert(e, es);
      assert r == [es[0]] + Insert(e, es[1..]);
      forall i, j | 0 <= i < j < |r| ensures LexLe(r[i].name, r[j].name) {
        if i > 0 { assert r[i] == Insert(e, es[1..])[i - 1]; }
      }
    }
  }

  /** Python's `sorted` on the entries, by name. */
  function SortByName(es: seq<DirEntry>): seq<DirEntry> {
    if es == [] then [] else Insert(es[0], SortByName(es[1..]))
  }

  /** Sorting yields the same entries, as often as listed, in name order. */
  lemma {:induction false} SortByNameSpec(es: seq<DirEntry>)
    ensures SortedByName(SortByName(es))
    ensures multiset(SortByName(es)) == multiset(es)
  {
    if es != [] {
      var rest := SortByName(es[1..]);
      SortByNameSpec(es[1..]);
      InsertSorted(es[0], rest);
      InsertPermutes(es[0], rest);
      assert es == [es[0]] + es[1..];
    }
  }

  function JsonEntries(es: seq<DirEntry>): (r: seq<DirEntry>)
    ensures forall e :: e in r ==> IsJsonName(e.name)
    ensures forall k :: 0 <= k < |es| && IsJsonName(es[k].name) ==> es[k] in r
    ensures forall e :: multiset(r)[e] == (if IsJsonName(e.name) then multiset(es)[e] else 0)
  {
    if es == [] then []
    else
      assert es == [es[0]] + es[1..];
      (if IsJsonName(es[0].name) then [es[0]] else []) + JsonEntries(es[1..])
  }

  /** The metadata files of the directory in sorted path order. */
  function MetadataFiles(es: seq<DirEntry>): (r: seq<DirEntry>)
    ensures forall e :: e in r ==> IsJsonName(e.name)
  {
    var r := SortByName(JsonEntries(es));
    SortByNameSpec(JsonEntries(es));
    assert forall e :: e in r ==> e in multiset(JsonEntries(es));
    r
  }

  /** The metadata files are sorted by name and are exactly the directory's `.json` entries, each as often as listed. */
  lemma MetadataFilesSorted(es: seq<DirEntry>)
    ensures SortedByName(MetadataFiles(es))
    ensures multiset(MetadataFiles(es)) == multiset(JsonEntries(es))
    ensures forall k :: 0 <= k < |es| && IsJsonName(es[k].name) ==> es[k] in MetadataFiles(es)
  {
    var r := MetadataFiles(es);
    SortByNameSpec(JsonEntries(es));
    forall k | 0 <= k < |es| && IsJsonName(es[k].name) ensures es[k] in r {
      assert es[k] in JsonEntries(es);
      assert es[k] in multiset(JsonEntries(es));
      assert es[k] in multiset(r);
    }
  }

  /** `metadata.get("id") or metadata_path.stem`. */
  function IdentifierOf(j: DirEntry): string
    requires IsJsonName(j.name)
  {
    if j.parsed.id.Some? && j.parsed.id.value != "" then j.parsed.id.value else Stem(j.name)
  }

  /** The record built from one metadata file and its sibling source file. */
  function RecordFor(entries: seq<DirEntry>, j: DirEntry): (r: Result<SnippetRecord, LoadError>)
    requires IsJsonName(j.name)
    ensures r.Failure? <==> Lookup(entries, ScadName(j.name)).None?
  {
    var identifier := IdentifierOf(j);
    match Lookup(entries, ScadName(j.name))
    case None => Failure(MissingSource(identifier))
    case Some(code) =>
      var m := j.parsed;
      Success(SnippetRecord(
        identifier,
        Strip(m.title.GetOr(ReplaceChar(identifier, '_', ' '))),
        m.summary.GetOr(""),
        m.parameters.GetOr([]),
        m.tags.GetOr([]),
        m.notes.GetOr(""),
        code))
  }

  /**
   * A metadata file without a sibling source file is reported under its
   * identifier; otherwise the record takes its identifier, a stripped title
   * (defaulting to the identifier with underscores as spaces), the remaining
   * fields with their defaults, and the source file's text as code.
   */
  lemma RecordFields(entries: seq<DirEntry>, j: DirEntry)
    requires IsJsonName(j.name)
    ensures var r := RecordFor(entries, j);
      && (r.Failure? ==> r.error == MissingSource(IdentifierOf(j)))
      && (r.Success? ==>
            && r.value.identifier == IdentifierOf(j)
            && r.value.code == Lookup(entries, ScadName(j.name)).value
            && IsStripped(r.value.title)
            && r.value.title == Strip(j.parsed.title.GetOr(ReplaceChar(IdentifierOf(j), '_', ' ')))
            && r.value.summary == j.parsed.summary.GetOr("")
            && r.value.parameters == j.parsed.parameters.GetOr([])
            && r.value.tags == j.parsed.tags.GetOr([])
            && r.value.notes == j.parsed.notes.GetOr(""))
  {
  }

  /** The identifier is the metadata's non-empty `id`, else the file stem. */
  lemma IdentifierRule(j: DirEntry)
    requires IsJsonName(j.name)
    ensures j.parsed.id.Some? && j.parsed.id.value != "" ==> IdentifierOf(j) == j.parsed.id.value
    ensures (j.parsed.id.None? || j.parsed.id.value == "") ==> IdentifierOf(j) == Stem(j.name) && IdentifierOf(j) != ""
  {
  }

  /** Some metadata file exists and every one has its source file. */
  ghost predicate FilesComplete(entries: seq<DirEntry>) {
    var files := MetadataFiles(entries);
    |files| > 0 && forall k :: 0 <= k < |files| ==> RecordFor(entries, files[k]).Success?
  }

  /** The `k`-th metadata file (in sorted order) is the first one without a source file. */
  ghost predicate FirstMissing(entries: seq<DirEntry>, k: nat) {
    var files := MetadataFiles(entries);
    && k < |files|
    && RecordFor(entries, files[k]).Failure?
    && forall i :: 0 <= i < k ==> RecordFor(entries, files[i]).Success?
  }

  /** `records` are the records built from the metadata files, one each, in order. */
  ghost predicate RecordsOf(entries: seq<DirEntry>, records: seq<SnippetRecord>) {
    var files := MetadataFiles(entries);
    |records| == |files| && forall k :: 0 <= k < |files| ==> RecordFor(entries, files[k]) == Success(records[k])
  }

  /** `e` is the error of the first metadata file without a source file. */
  ghost predicate ReportsFirstMissing(entries: seq<DirEntry>, e: LoadError) {
    exists k: nat :: FirstMissing(entries, k) && e == RecordFor(entries, MetadataFiles(entries)[k]).error
  }

  /** The outcome of building a record from each metadata file, in order. */
  ghost function Outcomes(entries: seq<DirEntry>): (r: seq<Result<SnippetRecord, LoadError>>)
    ensures |r| == |MetadataFiles(entries)|
    ensures forall k :: 0 <= k < |r| ==> r[k] == RecordFor(entries, MetadataFiles(entries)[k])
  {
    var files := MetadataFiles(entries);
    seq(|files|, k requires 0 <= k < |files| => RecordFor(entries, files[k]))
  }

  /** The values of the first `n` outcomes, or the first error among them. */
  function Collect(outs: seq<Result<SnippetRecord, LoadError>>, n: nat): Result<seq<SnippetRecord>, LoadError>
    requires n <= |outs|
  {
    if n == 0 then Success([])
    else
      match Collect(outs, n - 1)
      case Failure(e) => Failure(e)
      case Success(records) =>
        match outs[n - 1]
        case Failure(e) => Failure(e)
        case Success(x) => Success(records + [x])
  }

  /** What loading a directory yields. */
  ghost function Load(dir: Option<seq<DirEntry>>): Result<seq<SnippetRecord>, LoadError> {
    if dir.None? then Failure(DirectoryNotFound)
    else if MetadataFiles(dir.value) == [] then Failure(NoRecords)
    else
      var outs := Outcomes(dir.value);
      Collect(outs, |outs|)
  }

  /** Once a prefix fails, every longer prefix fails with the same error. */
  lemma {:induction false} CollectSticks(outs: seq<Result<SnippetRecord, LoadError>>, i: nat, n: nat)
    requires i <= n <= |outs|
    requires Collect(outs, i).Failure?
    ensures Collect(outs, n) == Collect(outs, i)
    decreases n
  {
    if n > i {
      CollectSticks(outs, i, n - 1);
    }
  }

  /** A prefix collects exactly when each of its outcomes is a success, and then yields their values. */
  lemma {:induction false} CollectSuccess(outs: seq<Result<SnippetRecord, LoadError>>, n: nat)
    requires n <= |outs|
    ensures Collect(outs, n).Success? <==> forall k :: 0 <= k < n ==> outs[k].Success?
    ensures Collect(outs, n).Success? ==>
        && |Collect(outs, n).value| == n
        && forall k :: 0 <= k < n ==> outs[k] == Success(Collect(outs, n).value[k])
  {
    if n > 0 {
      CollectSuccess(outs, n - 1);
    }
  }

  /** A failing prefix reports its first failure. */
  lemma {:induction false} CollectFailure(outs: seq<Result<SnippetRecord, LoadError>>, n: nat) returns (k: nat)
    requires n <= |outs|
    requires Collect(outs, n).Failure?
    ensures k < n && outs[k].Failure?
    ensures forall i :: 0 <= i < k ==> outs[i].Success?
    ensures Collect(outs, n).error == outs[k].error
  {
    if Collect(outs, n - 1).Failure? {
      k := CollectFailure(outs, n - 1);
    } else {
      CollectSuccess(outs, n - 1);
      k := n - 1;
    }
  }

  /** A missing directory and one without metadata files are errors of their own. */
  lemma LoadEmpty(dir: Option<seq<DirEntry>>)
    ensures dir.None? ==> Load(dir) == Failure(DirectoryNotFound)
    ensures dir.Some? && MetadataFiles(dir.value) == [] ==> Load(dir) == Failure(NoRecords)
    ensures dir.Some? && MetadataFiles(dir.value) != [] ==> Load(dir).Success? || Load(dir).error.MissingSource?
  {
    if dir.Some? && MetadataFiles(dir.value) != [] && Load(dir).Failure? {
      var outs := Outcomes(dir.value);
      var k := CollectFailure(outs, |outs|);
    }
  }

  /**
   * Loading a directory succeeds exactly when it has metadata files and each
   * has its source file; the records are then one per metadata file, in
   * sorted order.
   */
  lemma LoadSucceeds(dir: seq<DirEntry>)
    ensures Load(Some(dir)).Success? <==> FilesComplete(dir)
    ensures Load(Some(dir)).Success? ==> RecordsOf(dir, Load(Some(dir)).value)
  {
    if MetadataFiles(dir) != [] {
      CollectSuccess(Outcomes(dir), |MetadataFiles(dir)|);
    }
  }

  /** Otherwise loading reports the first metadata file, in sorted order, without its source file. */
  lemma LoadReportsFirst(dir: seq<DirEntry>)
    requires MetadataFiles(dir) != [] && Load(Some(dir)).Failure?
    ensures ReportsFirstMissing(dir, Load(Some(dir)).error)
  {
    var outs := Outcomes(dir);
    var k := CollectFailure(outs, |outs|);
    assert FirstMissing(dir, k);
  }

  /**
   * Loads every `.json`/`.scad` pair of a directory (`None` when it does not
   * exist), in sorted path order, stopping at the first metadata file without
   * its source file.
   */
  method LoadSnippetCorpus(dir: Option<seq<DirEntry>>) returns (r: Result<seq<SnippetRecord>, LoadError>)
    ensures r == Load(dir)
  {
    if dir.None? {
      return Failure(DirectoryNotFound);
    }
    var entries := dir.value;
    var files := MetadataFiles(entries);
    ghost var outs := Outcomes(entries);
    var records: seq<SnippetRecord> := [];
    var i := 0;
    while i < |files|
      invariant 0 <= i <= |files|
      invariant Collect(outs, i) == Success(records)
    {
      var record := RecordFor(entries, files[i]);
      assert record == outs[i];
      if record.Failure? {
        CollectSticks(outs, i + 1, |files|);
        return Failure(record.error);
      }
      records := records + [record.value];
      i := i + 1;
    }
    if records == [] {
      return Failure(NoRecords);
    }
    return Success(records);
  }
}
