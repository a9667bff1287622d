/**
 * String helpers shared by the model: Python's whitespace class, `str.strip`,
 * substring search (`in`, `str.split(marker, 1)`), `str.join`, `str.split(",")`,
 * ASCII `str.lower` and decimal rendering of indices.
 */
module Text {
  import opened Wrappers

  /** A character for which Python's `str.isspace()` holds; the same class is `\s` in a `re` pattern on `str`. */
  predicate IsSpace(c: char) {
    || ('\t' <= c <= '\r')
    || ('\U{001C}' <= c <= '\U{001F}')
    || c == ' '
    || c == '\U{0085}'
    || c == '\U{00A0}'
    || c == '\U{1680}'
    || ('\U{2000}' <= c <= '\U{200A}')
    || c == '\U{2028}'
    || c == '\U{2029}'
    || c == '\U{202F}'
    || c == '\U{205F}'
    || c == '\U{3000}'
  }

  ghost predicate AllSpace(s: string) {
    forall k :: 0 <= k < |s| ==> IsSpace(s[k])
  }

  lemma AllSpaceAppend(x: string, y: string)
    requires AllSpace(x) && AllSpace(y)
    ensures AllSpace(x + y)
  {
    forall k | 0 <= k < |x + y| ensures IsSpace((x + y)[k]) {
      if k < |x| { assert (x + y)[k] == x[k]; } else { assert (x + y)[k] == y[k - |x|]; }
    }
  }

  /** No whitespace at either end: what `str.strip()` always returns. */
  predicate IsStripped(s: string) {
    s == [] || (!IsSpace(s[0]) && !IsSpace(s[|s| - 1]))
  }

  /** `str.lstrip()`: the longest suffix that does not start with whitespace. */
  function TrimStart(s: string): string {
    if |s| > 0 && IsSpace(s[0]) then TrimStart(s[1..]) else s
  }

  /** `TrimStart` cuts whitespace only, and all of it. */
  lemma {:induction false} TrimStartSpec(s: string)
    ensures var r := TrimStart(s);
      && |r| <= |s| && r == s[|s| - |r|..]
      && AllSpace(s[..|s| - |r|])
      && (r == [] || !IsSpace(r[0]))
  {
    if |s| > 0 && IsSpace(s[0]) {
      TrimStartSpec(s[1..]);
      var r := TrimStart(s[1..]);
      assert s[1..][|s| - 1 - |r|..] == s[|s| - |r|..];
      assert s[..|s| - |r|] == [s[0]] + s[1..][..|s| - 1 - |r|];
      AllSpaceAppend([s[0]], s[1..][..|s| - 1 - |r|]);
    }
  }

  /** `str.rstrip()`: the longest prefix that does not end with whitespace. */
  function TrimEnd(s: string): string {
    if |s| > 0 && IsSpace(s[|s| - 1]) then TrimEnd(s[..|s| - 1]) else s
  }

  /** `TrimEnd` cuts whitespace only, and all of it. */
  lemma {:induction false} TrimEndSpec(s: string)
    ensures var r := TrimEnd(s);
      && |r| <= |s| && r == s[..|r|]
      && AllSpace(s[|r|..])
      && (r == [] || !IsSpace(r[|r| - 1]))
  {
    if |s| > 0 && IsSpace(s[|s| - 1]) {
      TrimEndSpec(s[..|s| - 1]);
      var r := TrimEnd(s[..|s| - 1]);
      assert s[..|s| - 1][..|r|] == s[..|r|];
      assert s[|r|..] == s[..|s| - 1][|r|..] + [s[|s| - 1]];
      AllSpaceAppend(s[..|s| - 1][|r|..], [s[|s| - 1]]);
    } else {
      assert s[..|s|] == s;
    }
  }

  /** `str.strip()` with no argument. */
  function Strip(s: string): (r: string)
    ensures IsStripped(r)
    ensures |r| <= |s|
  {
    var t := TrimStart(s);
    TrimStartSpec(s);
    var r := TrimEnd(t);
    TrimEndSpec(t);
    assert r != [] ==> r[0] == t[0];
    r
  }

  /** `not s.strip()`: the string is empty or whitespace only (see `BlankIffStripEmpty`). */
  predicate IsBlank(s: string) {
    |s| == 0 || (IsSpace(s[0]) && IsBlank(s[1..]))
  }

  /** The result of `Strip` is a slice of its input with only whitespace cut off at both ends. */
  lemma StripSlice(s: string) returns (i: nat)
    ensures i + |Strip(s)| <= |s|
    ensures s[i..i + |Strip(s)|] == Strip(s)
    ensures AllSpace(s[..i]) && AllSpace(s[i + |Strip(s)|..])
  {
    var t := TrimStart(s);
    TrimStartSpec(s);
    var r := TrimEnd(t);
    TrimEndSpec(t);
    i := |s| - |t|;
    TrimmedSlice(s, i, t, r);
  }

  lemma TrimmedSlice(s: string, i: nat, t: string, r: string)
    requires i <= |s| && t == s[i..] && |r| <= |t| && r == t[..|r|]
    requires AllSpace(t[|r|..])
    ensures s[i..i + |r|] == r
    ensures AllSpace(s[i + |r|..])
  {
    SliceOfSlice(s, i, |s|, 0, |r|);
    SliceOfSlice(s, i, |s|, |r|, |t|);
    assert s[i..|s|] == t;
  }

  /** Stripping is unique: cutting whitespace off a stripped middle gives that middle back. */
  lemma {:induction false} StripUnique(a: string, m: string, b: string)
    requires AllSpace(a) && AllSpace(b) && IsStripped(m)
    ensures Strip(a + m + b) == m
  {
    if m == [] {
      assert a + m + b == (a + b) + [];
      AllSpaceAppend(a, b);
      TrimStartSpaces(a + b, []);
      assert TrimStart(a + m + b) == [];
    } else {
      assert a + m + b == a + (m + b);
      TrimStartSpaces(a, m + b);
      TrimEndSpaces(m, b);
      assert TrimEnd(TrimStart(a + m + b)) == m;
    }
  }

  lemma {:induction false} TrimStartSpaces(a: string, t: string)
    requires AllSpace(a) && (t == [] || !IsSpace(t[0]))
    ensures TrimStart(a + t) == t
  {
    if a != [] {
      assert (a + t)[1..] == a[1..] + t;
      TrimStartSpaces(a[1..], t);
    }
  }

  lemma {:induction false} TrimEndSpaces(t: string, b: string)
    requires AllSpace(b) && (t == [] || !IsSpace(t[|t| - 1]))
    ensures TrimEnd(t + b) == t
  {
    if b != [] {
      assert (t + b)[..|t + b| - 1] == t + b[..|b| - 1];
      TrimEndSpaces(t, b[..|b| - 1]);
    } else {
      assert t + b == t;
    }
  }

  /** `str.strip()` is idempotent. */
  lemma StripIdempotent(s: string)
    ensures Strip(Strip(s)) == Strip(s)
  {
    StrippedIsFixed(Strip(s));
  }

  /** A string that is already stripped is left as it is. */
  lemma StrippedIsFixed(m: string)
    requires IsStripped(m)
    ensures Strip(m) == m
  {
    StripUnique([], m, []);
    assert [] + m + [] == m;
  }

  /** Padding a stripped text changes nothing once stripped again. */
  lemma StripPadded(a: string, m: string, b: string)
    requires IsBlank(a) && IsBlank(b) && IsStripped(m)
    ensures Strip(a + m + b) == Strip(m)
  {
    BlankIffAllSpace(a);
    BlankIffAllSpace(b);
    StripUnique(a, m, b);
    StrippedIsFixed(m);
  }

  /** Blank means whitespace only, in both directions. */
  lemma {:induction false} BlankIffAllSpace(s: string)
    ensures IsBlank(s) <==> AllSpace(s)
  {
    if |s| > 0 {
      BlankIffAllSpace(s[1..]);
      assert AllSpace(s) <==> IsSpace(s[0]) && AllSpace(s[1..]) by {
        assert forall k :: 1 <= k < |s| ==> s[1..][k - 1] == s[k];
      }
    }
  }

  /** Stripping leaves nothing exactly when the string is blank. */
  lemma BlankIffStripEmpty(s: string)
    ensures IsBlank(s) <==> Strip(s) == []
  {
    BlankIffAllSpace(s);
    var i := StripSlice(s);
    if AllSpace(s) {
      StripUnique(s, [], []);
      assert s + [] + [] == s;
    }
    if Strip(s) == [] {
      forall k | 0 <= k < |s| ensures IsSpace(s[k]) {
        if k < i { assert s[..i][k] == s[k]; } else { assert s[i..][k - i] == s[k]; }
      }
    }
  }

  // ----- substring search -----

  /** `pat` occurs in `s` starting at index `k`. */
  predicate IsAt(s: string, pat: string, k: nat) {
    k + |pat| <= |s| && s[k..k + |pat|] == pat
  }

  /** Python's `pat in s`. */
  ghost predicate Occurs(s: string, pat: string) {
    exists k: nat :: IsAt(s, pat, k)
  }

  /** `k` is the leftmost occurrence of `pat` in `s`. */
  ghost predicate FirstAt(s: string, pat: string, k: nat) {
    IsAt(s, pat, k) && forall j: nat :: j < k ==> !IsAt(s, pat, j)
  }

  /** The leftmost occurrence of `pat` in `s` at or after `from`, as `str.find(pat, from)` gives it. */
  function FindFrom(s: string, pat: string, from: nat): (r: Option<nat>)
    requires from <= |s|
    ensures r.Some? ==> from <= r.value && IsAt(s, pat, r.value)
    ensures r.Some? ==> forall j: nat :: from <= j < r.value ==> !IsAt(s, pat, j)
    ensures r.None? ==> forall j: nat :: from <= j ==> !IsAt(s, pat, j)
    decreases |s| - from
  {
    if IsAt(s, pat, from) then Some(from)
    else if from == |s| then None
    else FindFrom(s, pat, from + 1)
  }

  /** Python's `pat in s`, computed. */
  predicate Contains(s: string, pat: string)
    ensures Contains(s, pat) <==> Occurs(s, pat)
  {
    FindFrom(s, pat, 0).Some?
  }

  /** An occurrence inside a slice is an occurrence in the whole string, shifted. */
  lemma IsAtSlice(s: string, i: nat, j: nat, pat: string, k: nat)
    requires i <= j <= |s|
    requires k + |pat| <= j - i
    ensures IsAt(s[i..j], pat, k) <==> IsAt(s, pat, i + k)
  {
    SliceOfSlice(s, i, j, k, k + |pat|);
  }

  /** A slice of a stretch that holds no occurrence of `pat` holds none either. */
  lemma SliceAvoids(s: string, lo: nat, hi: nat, pat: string)
    requires lo <= hi <= |s| && |pat| > 0
    requires forall k: nat :: lo <= k < hi ==> !IsAt(s, pat, k)
    ensures forall k: nat :: !IsAt(s[lo..hi], pat, k)
  {
    forall k: nat | IsAt(s[lo..hi], pat, k) ensures false {
      IsAtSlice(s, lo, hi, pat, k);
    }
  }

  /** A slice that holds no occurrence of `pat` keeps none once stripped. */
  lemma StripOfSliceAvoids(s: string, lo: nat, hi: nat, pat: string)
    requires lo <= hi <= |s| && |pat| > 0
    requires forall k: nat :: lo <= k < hi ==> !IsAt(s, pat, k)
    ensures !Occurs(Strip(s[lo..hi]), pat)
  {
    var x := s[lo..hi];
    SliceAvoids(s, lo, hi, pat);
    var i := StripSlice(x);
    SliceAvoids(x, i, i + |Strip(x)|, pat);
  }

  lemma SliceOfSlice(s: string, i: nat, j: nat, a: nat, b: nat)
    requires i <= j <= |s| && a <= b <= j - i
    ensures s[i..j][a..b] == s[i + a..i + b]
  {
    assert forall t :: 0 <= t < b - a ==> s[i..j][a..b][t] == s[i + a + t];
  }

  /** The end of the run of characters satisfying `inRun` that starts at `i`. */
  function SkipWhile(s: string, i: nat, inRun: char -> bool): (j: nat)
    requires i <= |s|
    ensures i <= j <= |s|
    ensures forall k :: i <= k < j ==> inRun(s[k])
    ensures j < |s| ==> !inRun(s[j])
    decreases |s| - i
  {
    if i < |s| && inRun(s[i]) then SkipWhile(s, i + 1, inRun) else i
  }

  /** A run ends exactly where the first character outside it stands. */
  lemma SkipWhileUnique(s: string, i: nat, j: nat, inRun: char -> bool)
    requires i <= j < |s|
    requires forall k :: i <= k < j ==> inRun(s[k])
    requires !inRun(s[j])
    ensures SkipWhile(s, i, inRun) == j
  {
  }

  // ----- join and split -----

  /** Python's `sep.join(parts)`. */
  function Join(sep: string, parts: seq<string>): string {
    if |parts| == 0 then ""
    else if |parts| == 1 then parts[0]
    else parts[0] + sep + Join(sep, parts[1..])
  }

  /** Joining after appending one more part adds a separator and the part. */
  lemma {:induction false} JoinSnoc(sep: string, parts: seq<string>, x: string)
    requires |parts| > 0
    ensures Join(sep, parts + [x]) == Join(sep, parts) + sep + x
  {
    if |parts| > 1 {
      assert (parts + [x])[1..] == parts[1..] + [x];
      JoinSnoc(sep, parts[1..], x);
    } else {
      assert (parts + [x])[1..] == [x];
    }
  }

  /** Joining a concatenation of two non-empty lists puts one separator between the two joins. */
  lemma {:induction false} JoinAppend(sep: string, xs: seq<string>, ys: seq<string>)
    requires |xs| > 0 && |ys| > 0
    ensures Join(sep, xs + ys) == Join(sep, xs) + sep + Join(sep, ys)
  {
    if |xs| > 1 {
      assert (xs + ys)[1..] == xs[1..] + ys;
      JoinAppend(sep, xs[1..], ys);
    } else {
      assert (xs + ys)[1..] == ys;
    }
  }

  /** A join of two or more parts starts with the first part and a separator, and ends with the last part. */
  lemma {:induction false} JoinEnds(sep: string, parts: seq<string>)
    requires |parts| >= 2
    ensures IsAt(Join(sep, parts), parts[0] + sep, 0)
    ensures var j := Join(sep, parts); var last := parts[|parts| - 1];
      |last| <= |j| && j[|j| - |last|..] == last
  {
    var head := parts[0] + sep;
    var rest := Join(sep, parts[1..]);
    var last := parts[|parts| - 1];
    assert Join(sep, parts) == head + rest;
    if |parts| > 2 {
      JoinEnds(sep, parts[1..]);
    }
    assert |last| <= |rest| && rest[|rest| - |last|..] == last;
    assert (head + rest)[..|head|] == head;
    assert (head + rest)[|head + rest| - |last|..] == rest[|rest| - |last|..];
  }

  /** Python's `s.split(c)` for a one-character separator: always at least one piece. */
  function Split(s: string, c: char): (r: seq<string>)
    ensures |r| >= 1
    ensures forall k :: 0 <= k < |r| ==> c !in r[k]
    ensures Join([c], r) == s
    decreases |s|
  {
    match FindFrom(s, [c], 0)
    case None =>
      assert forall k :: 0 <= k < |s| ==> s[k] != c by {
        forall k | 0 <= k < |s| ensures s[k] != c { assert !IsAt(s, [c], k); }
      }
      [s]
    case Some(i) =>
      var rest := Split(s[i + 1..], c);
      SplitStep(s, c, i, rest);
      [s[..i]] + rest
  }

  /** Cutting at the first separator and splitting the rest splits the whole. */
  lemma SplitStep(s: string, c: char, i: nat, rest: seq<string>)
    requires IsAt(s, [c], i)
    requires forall j: nat :: j < i ==> !IsAt(s, [c], j)
    requires |rest| >= 1 && Join([c], rest) == s[i + 1..]
    requires forall k :: 0 <= k < |rest| ==> c !in rest[k]
    ensures var r := [s[..i]] + rest;
      && (forall k :: 0 <= k < |r| ==> c !in r[k])
      && Join([c], r) == s
  {
    var head := s[..i];
    assert c !in head by {
      forall k | 0 <= k < i ensures head[k] != c { assert !IsAt(s, [c], k); }
    }
    var r := [head] + rest;
    assert r[1..] == rest;
    assert Join([c], r) == head + [c] + Join([c], rest);
    assert s[i] == s[i..i + 1][0] == c;
    assert s == head + [c] + s[i + 1..];
    forall k | 0 <= k < |r| ensures c !in r[k] {
      if k > 0 { assert r[k] == rest[k - 1]; }
    }
  }

  /** `Split` is the only way to cut `s` into separator-free pieces that join back to `s`. */
  lemma {:induction false} SplitUnique(s: string, c: char, parts: seq<string>)
    requires |parts| >= 1
    requires forall k :: 0 <= k < |parts| ==> c !in parts[k]
    requires Join([c], parts) == s
    ensures Split(s, c) == parts
    decreases |parts|
  {
    var p0 := parts[0];
    if |parts| == 1 {
      forall j: nat | j < |s| ensures !IsAt(s, [c], j) {
        assert s[j] != c;
      }
    } else {
      var rest := Join([c], parts[1..]);
      assert s == p0 + [c] + rest;
      var i := |p0|;
      assert IsAt(s, [c], i) by { assert s[i..i + 1] == [c]; }
      forall j: nat | j < i ensures !IsAt(s, [c], j) {
        assert s[j] == p0[j];
      }
      assert FindFrom(s, [c], 0) == Some(i);
      assert s[..i] == p0;
      assert s[i + 1..] == rest;
      SplitUnique(rest, c, parts[1..]);
      assert parts == [p0] + parts[1..];
    }
  }

  /** Splitting at a separator splits each side independently. */
  lemma SplitAppend(a: string, b: string, c: char)
    ensures Split(a + [c] + b, c) == Split(a, c) + Split(b, c)
  {
    var xs := Split(a, c);
    var ys := Split(b, c);
    JoinAppend([c], xs, ys);
    forall k | 0 <= k < |xs + ys| ensures c !in (xs + ys)[k] {
      if k < |xs| { assert (xs + ys)[k] == xs[k]; } else { assert (xs + ys)[k] == ys[k - |xs|]; }
    }
    SplitUnique(a + [c] + b, c, xs + ys);
  }

  // ----- case and characters -----

  /** `str.lower()` on ASCII letters; every other character is returned unchanged. */
  function LowerChar(c: char): char {
    if 'A' <= c <= 'Z' then (c as int + 32) as char else c
  }

  function Lower(s: string): (r: string)
    ensures |r| == |s|
    ensures forall k :: 0 <= k < |s| ==> r[k] == LowerChar(s[k])
  {
    seq(|s|, k requires 0 <= k < |s| => LowerChar(s[k]))
  }

  /** `s.replace(from, to)` for single characters. */
  function ReplaceChar(s: string, from: char, to: char): (r: string)
    ensures |r| == |s|
    ensures forall k :: 0 <= k < |s| ==> r[k] == (if s[k] == from then to else s[k])
  {
    seq(|s|, k requires 0 <= k < |s| => if s[k] == from then to else s[k])
  }

  // ----- decimal numbers -----

  function DigitChar(d: nat): char
    requires d < 10
  {
    ('0' as int + d) as char
  }

  /** Python's `str(n)` for a natural number. */
  function NatToString(n: nat): (r: string)
    ensures |r| >= 1
    ensures forall k :: 0 <= k < |r| ==> '0' <= r[k] <= '9'
  {
    if n < 10 then [DigitChar(n)] else NatToString(n / 10) + [DigitChar(n % 10)]
  }

  /** Reads back a string of decimal digits. */
  function ParseDigits(s: string): nat
    requires forall k :: 0 <= k < |s| ==> '0' <= s[k] <= '9'
  {
    if s == [] then 0 else 10 * ParseDigits(s[..|s| - 1]) + (s[|s| - 1] as int - '0' as int)
  }

  /** Decimal rendering is reversible, so distinct indices get distinct labels. */
  lemma {:induction false} NatToStringRoundTrip(n: nat)
    ensures ParseDigits(NatToString(n)) == n
  {
    if n >= 10 {
      var r := NatToString(n);
      assert r[..|r| - 1] == NatToString(n / 10);
      NatToStringRoundTrip(n / 10);
    }
  }

  lemma NatToStringInjective(m: nat, n: nat)
    requires m != n
    ensures NatToString(m) != NatToString(n)
  {
    NatToStringRoundTrip(m);
    NatToStringRoundTrip(n);
  }
}
