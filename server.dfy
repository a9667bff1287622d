/** The API server's CORS origin list, parsed from its setting. */
module Server {
  import opened Wrappers
  import opened Text

  const DefaultOrigin := "http://localhost:5173"

  /** The comma-separated entries, stripped, with the empty ones dropped, in order. */
  function Origins(pieces: seq<string>): (r: seq<string>)
    ensures |r| <= |pieces|
    ensures forall k :: 0 <= k < |r| ==> r[k] != [] && IsStripped(r[k])
    ensures |pieces| == 1 ==> r == (if Strip(pieces[0]) == [] then [] else [Strip(pieces[0])])
  {
    if pieces == [] then []
    else
      var o := Strip(pieces[0]);
      (if o != [] then [o] else []) + Origins(pieces[1..])
  }

  /** The origins of a concatenation are the origins of each part. */
  lemma {:induction false} OriginsAppend(xs: seq<string>, ys: seq<string>)
    ensures Origins(xs + ys) == Origins(xs) + Origins(ys)
  {
    if xs != [] {
      assert (xs + ys)[1..] == xs[1..] + ys;
      OriginsAppend(xs[1..], ys);
    } else {
      assert xs + ys == ys;
    }
  }

  /** The origins read from the raw setting. */
  function ParsedOrigins(raw: string): seq<string> {
    Origins(Split(raw, ','))
  }

  /**
   * The allowed origins: exactly `*` when any entry is `*`, otherwise the
   * entries, falling back to the default origin when there are none or the
   * setting is unset.
   */
  function AllowedOrigins(setting: Option<string>): (r: seq<string>)
    ensures |r| >= 1
    ensures forall k :: 0 <= k < |r| ==> r[k] != [] && IsStripped(r[k])
    ensures var origins := ParsedOrigins(setting.GetOr(DefaultOrigin));
      && ("*" in origins ==> r == ["*"])
      && ("*" !in origins && origins != [] ==> r == origins)
      && (origins == [] ==> r == [DefaultOrigin])
  {
    var origins := ParsedOrigins(setting.GetOr(DefaultOrigin));
    if "*" in origins then ["*"]
    else if origins == [] then [DefaultOrigin]
    else origins
  }

  /** Joining two settings with a comma joins their origin lists. */
  lemma ParsedConcat(a: string, b: string)
    ensures ParsedOrigins(a + "," + b) == ParsedOrigins(a) + ParsedOrigins(b)
  {
    SplitAppend(a, b, ',');
    assert a + "," + b == a + [','] + b;
    OriginsAppend(Split(a, ','), Split(b, ','));
  }

  /** A setting without a comma is one entry: kept stripped, or dropped when blank. */
  lemma OneEntry(x: string)
    requires ',' !in x
    ensures ParsedOrigins(x) == (if Strip(x) == [] then [] else [Strip(x)])
  {
    SplitUnique(x, ',', [x]);
  }

  /** A single stripped entry without a comma parses to itself. */
  lemma SingleEntry(m: string)
    requires m != [] && IsStripped(m) && ',' !in m
    ensures ParsedOrigins(m) == [m]
  {
    OneEntry(m);
    StrippedIsFixed(m);
  }

  /** Whitespace around an entry is trimmed off. */
  lemma PaddedEntry(a: string, m: string, b: string)
    requires IsBlank(a) && IsBlank(b) && IsStripped(m) && m != []
    requires ',' !in a + m + b
    ensures ParsedOrigins(a + m + b) == [m]
  {
    OneEntry(a + m + b);
    StripPadded(a, m, b);
    StrippedIsFixed(m);
  }

  /** A blank entry between two others is dropped. */
  lemma BlankEntryDropped(xs: seq<string>, blank: string, ys: seq<string>)
    requires IsBlank(blank)
    ensures Origins(xs + [blank] + ys) == Origins(xs) + Origins(ys)
  {
    BlankIffStripEmpty(blank);
    OriginsAppend(xs + [blank], ys);
    OriginsAppend(xs, [blank]);
  }

  /** A stripped entry anywhere in the setting is among the origins. */
  lemma EntryAnywhere(a: string, m: string, b: string)
    requires m != [] && IsStripped(m) && ',' !in m
    ensures m in ParsedOrigins(a + "," + m + "," + b)
  {
    assert a + "," + m + "," + b == a + "," + (m + "," + b);
    ParsedConcat(a, m + "," + b);
    ParsedConcat(m, b);
    SingleEntry(m);
    assert ParsedOrigins(a + "," + m + "," + b)[|ParsedOrigins(a)|] == m;
  }

  /** A `*` entry anywhere in the list allows every origin. */
  lemma StarAnywhere(a: string, b: string)
    ensures AllowedOrigins(Some(a + ",*," + b)) == ["*"]
  {
    assert a + ",*," + b == a + "," + "*" + "," + b;
    EntryAnywhere(a, "*", b);
  }

  /** With the setting unset, the default origin is allowed and nothing else. */
  lemma DefaultWhenUnset()
    ensures AllowedOrigins(None) == [DefaultOrigin]
  {
    SingleEntry(DefaultOrigin);
  }
}
