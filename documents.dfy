/**
 * Stored snippet documents as the vector store returns them, and the snippet
 * record the retrieval steps project out of each (document, score) pair.
 */
module Documents {
  import opened Wrappers
  import opened Text

  /** A value in a document's metadata mapping. */
  datatype MetaValue =
    | Str(text: string)                        // id, title, summary, notes
    | Mapping(entries: seq<(string, string)>)  // parameter name -> description, in insertion order
    | Items(items: seq<string>)                // tags

  /** A stored document: its text body and its metadata mapping (`{}` when it has none). */
  datatype Document = Document(pageContent: string, metadata: map<string, MetaValue>)

  /** Python's `dict.get(key)`: `None` for a missing key. */
  function Get(m: map<string, MetaValue>, key: string): (r: Option<MetaValue>)
    ensures r.Some? <==> key in m
    ensures r.Some? ==> r.value == m[key]
  {
    if key in m then Some(m[key]) else None
  }

  /** One retrieved snippet: the six metadata fields as looked up, the store's score and the extracted code. */
  datatype Snippet = Snippet(
    id: Option<MetaValue>,
    title: Option<MetaValue>,
    summary: Option<MetaValue>,
    parameters: Option<MetaValue>,
    tags: Option<MetaValue>,
    notes: Option<MetaValue>,
    score: real,
    code: string)

  /** The line that opens the code section of a stored document. */
  const CodeMarker := "OpenSCAD Code:\n"

  /**
   * The code section of a stored document: everything after the first
   * occurrence of the marker, or the whole text when there is none.
   */
  function ExtractCode(pageContent: string): (r: string)
    ensures !Occurs(pageContent, CodeMarker) ==> r == pageContent
    ensures forall k: nat :: FirstAt(pageContent, CodeMarker, k) ==> r == pageContent[k + |CodeMarker|..]
  {
    match FindFrom(pageContent, CodeMarker, 0)
    case Some(k) =>
      assert forall j: nat :: FirstAt(pageContent, CodeMarker, j) ==> j == k;
      pageContent[k + |CodeMarker|..]
    case None => pageContent
  }

  /** Projects a (document, score) pair of the store into a snippet. */
  function FormatSnippet(doc: Document, score: real): (r: Snippet)
    ensures r.score == score && r.code == ExtractCode(doc.pageContent)
    ensures doc.metadata == map[] ==>
      r.id.None? && r.title.None? && r.summary.None? && r.parameters.None? && r.tags.None? && r.notes.None?
    ensures r.title.Some? <==> "title" in doc.metadata
    ensures r.id == Get(doc.metadata, "id") && r.title == Get(doc.metadata, "title")
    ensures r.summary == Get(doc.metadata, "summary") && r.parameters == Get(doc.metadata, "parameters")
    ensures r.tags == Get(doc.metadata, "tags") && r.notes == Get(doc.metadata, "notes")
  {
    var m := doc.metadata;
    Snippet(Get(m, "id"), Get(m, "title"), Get(m, "summary"), Get(m, "parameters"),
            Get(m, "tags"), Get(m, "notes"), score, ExtractCode(doc.pageContent))
  }

  /** The snippets formatted from the store's results, in the store's order. */
  function Snippets(results: seq<(Document, real)>): (r: seq<Snippet>)
    ensures |r| == |results|
    ensures forall i :: 0 <= i < |r| ==> r[i].score == results[i].1
    ensures forall i :: 0 <= i < |r| ==> r[i].code == ExtractCode(results[i].0.pageContent)
  {
    seq(|results|, i requires 0 <= i < |results| => FormatSnippet(results[i].0, results[i].1))
  }

  /** The header line that opens the context block of the `index`-th result (counting from 1). */
  function BlockHeader(index: nat, sn: Snippet): string {
    "Snippet " + NatToString(index) + ": " + Display(sn.title)
  }

  /** How a parameter (name, description) pair is listed: `- name: description`. */
  function ParameterLine(p: (string, string)): string {
    "- " + p.0 + ": " + p.1
  }

  function ParameterLines(ps: seq<(string, string)>): seq<string> {
    seq(|ps|, i requires 0 <= i < |ps| => ParameterLine(ps[i]))
  }

  /** Python's `repr` of a string, without escaping. */
  function Quote(s: string): string {
    "'" + s + "'"
  }

  /** How an f-string renders a looked-up metadata value: `None`, the string itself, or the dict/list repr. */
  function Display(v: Option<MetaValue>): string {
    match v
    case None => "None"
    case Some(Str(s)) => s
    case Some(Mapping(es)) =>
      "{" + Join(", ", seq(|es|, i requires 0 <= i < |es| => Quote(es[i].0) + ": " + Quote(es[i].1))) + "}"
    case Some(Items(xs)) =>
      "[" + Join(", ", seq(|xs|, i requires 0 <= i < |xs| => Quote(xs[i]))) + "]"
  }
}
