/**
 * The text side of the synthesize stage: the prompt sent to the model, the
 * clean-up of the model's reply, and the two guardrails on the result.
 */
module Synthesis {
  import opened Wrappers
  import opened Text

  // ----- prompt -----

  /** The fixed rule set that opens every prompt. */
  const PromptRules :=
    "You are an OpenSCAD expert helping convert natural language requests into "
    + "valid OpenSCAD code. Follow these rules:\n"
    + "- Use only OpenSCAD syntax supported by the latest stable release.\n"
    + "- Define a `module main()` entry point that renders the design.\n"
    + "- Keep tunable parameters at the top with sensible defaults.\n"
    + "- Avoid importing external libraries.\n"
    + "- Return only OpenSCAD code.\n"
    + "\n"

  const RequestLead := PromptRules + "User request:\n"
  const ContextLead := "\n\nReference snippets:\n"
  const PromptCue := "\n\nOpenSCAD code:"

  /** The prompt sent to the model. */
  function BuildPrompt(question: string, context: string): string {
    RequestLead + question + ContextLead + context + PromptCue
  }

  /**
   * The prompt holds the rules, then the request verbatim, then the
   * reference snippets verbatim, then the cue for the answer.
   */
  lemma PromptLayout(question: string, context: string)
    ensures var r := BuildPrompt(question, context);
      && |r| == |RequestLead| + |question| + |ContextLead| + |context| + |PromptCue|
      && r[..|PromptRules|] == PromptRules
      && r[|RequestLead|..|RequestLead| + |question|] == question
      && r[|r| - |PromptCue| - |context|..|r| - |PromptCue|] == context
      && r[|r| - |PromptCue|..] == PromptCue
  {
    var r := BuildPrompt(question, context);
    assert r == (RequestLead + question + ContextLead) + context + PromptCue;
    assert r[..|PromptRules|] == RequestLead[..|PromptRules|];
  }

  // ----- fenced code in the reply -----

  const Fence := "```"

  /** The characters allowed in a fence's language tag: `[a-zA-Z0-9_+-]`. */
  predicate IsLangChar(c: char) {
    ('a' <= c <= 'z') || ('A' <= c <= 'Z') || ('0' <= c <= '9') || c == '_' || c == '+' || c == '-'
  }

  /**
   * The pattern "```" [a-zA-Z0-9_+-]* "\n" (lazy body) "```" matches at
   * `open`, with its captured body `s[body..close]`: a fence, a language tag,
   * a newline, and the shortest text up to the next fence.
   */
  ghost predicate FenceMatch(s: string, open: nat, body: nat, close: nat) {
    && IsAt(s, Fence, open)
    && open + 3 < body <= close
    && IsAt(s, Fence, close)
    && s[body - 1] == '\n'
    && (forall k :: open + 3 <= k < body - 1 ==> IsLangChar(s[k]))
    && (forall k: nat :: body <= k < close ==> !IsAt(s, Fence, k))
  }

  ghost predicate HasFence(s: string) {
    exists open, body, close :: FenceMatch(s, open, body, close)
  }

  /** The match that a left-to-right regex search reports: no match starts earlier. */
  ghost predicate LeftmostFence(s: string, open: nat, body: nat, close: nat) {
    && FenceMatch(s, open, body, close)
    && forall o: nat, b: nat, c: nat :: o < open ==> !FenceMatch(s, o, b, c)
  }

  /** Tries the pattern at one start position; there is at most one match there. */
  function FenceAt(s: string, open: nat): (r: Option<(nat, nat)>)
    requires open <= |s|
    ensures r.Some? ==> FenceMatch(s, open, r.value.0, r.value.1)
    ensures forall b: nat, c: nat :: FenceMatch(s, open, b, c) ==> r == Some((b, c))
  {
    if !IsAt(s, Fence, open) then None
    else
      var nl := SkipWhile(s, open + 3, IsLangChar);
      if nl < |s| && s[nl] == '\n' then
        match FindFrom(s, Fence, nl + 1)
        case Some(close) => Some((nl + 1, close))
        case None => None
      else None
  }

  lemma FenceAtComplete(s: string, open: nat, body: nat, close: nat)
    requires open <= |s| && FenceMatch(s, open, body, close)
    ensures FenceAt(s, open) == Some((body, close))
  {
    SkipWhileUnique(s, open + 3, body - 1, IsLangChar);
  }

  datatype FenceSpan = FenceSpan(open: nat, body: nat, close: nat)

  /** The leftmost match starting at or after `from`. */
  function FirstFence(s: string, from: nat): (r: Option<FenceSpan>)
    requires from <= |s|
    ensures r.Some? ==> from <= r.value.open && FenceMatch(s, r.value.open, r.value.body, r.value.close)
    ensures r.Some? ==> forall o: nat, b: nat, c: nat :: from <= o < r.value.open ==> !FenceMatch(s, o, b, c)
    ensures r.None? ==> forall o: nat, b: nat, c: nat :: from <= o ==> !FenceMatch(s, o, b, c)
    decreases |s| - from
  {
    match FenceAt(s, from)
    case Some((body, close)) => Some(FenceSpan(from, body, close))
    case None =>
      if from == |s| then None else FirstFence(s, from + 1)
  }

  /**
   * The model's reply without its markdown fence: the body of the first
   * fenced block when there is one, else the whole reply; stripped either way.
   */
  function NormalizeCode(reply: string): (r: string)
    ensures IsStripped(r)
  {
    match FirstFence(reply, 0)
    case None => Strip(reply)
    case Some(m) => Strip(reply[m.body..m.close])
  }

  /**
   * Without a fenced block the reply is only stripped; with one, the result
   * is the stripped body of the leftmost match, and holds no fence.
   */
  lemma NormalizeCodeFences(reply: string)
    ensures !HasFence(reply) ==> NormalizeCode(reply) == Strip(reply)
    ensures forall o: nat, b: nat, c: nat :: LeftmostFence(reply, o, b, c) ==> NormalizeCode(reply) == Strip(reply[b..c])
    ensures HasFence(reply) ==> !Occurs(NormalizeCode(reply), Fence)
  {
    match FirstFence(reply, 0)
    case None =>
    case Some(m) =>
      FenceBodyHasNoFence(reply, m.open, m.body, m.close);
      forall o: nat, b: nat, c: nat | LeftmostFence(reply, o, b, c) ensures o == m.open && b == m.body && c == m.close {
        FenceAtComplete(reply, o, b, c);
        FenceAtComplete(reply, m.open, m.body, m.close);
      }
  }

  /** The captured body of a match, and therefore its stripped form, holds no fence. */
  lemma FenceBodyHasNoFence(s: string, open: nat, body: nat, close: nat)
    requires FenceMatch(s, open, body, close)
    ensures !Occurs(Strip(s[body..close]), Fence)
  {
    StripOfSliceAvoids(s, body, close, Fence);
  }

  /** A match inside a slice is a match in the whole string, shifted. */
  lemma FenceMatchInSlice(s: string, lo: nat, hi: nat, open: nat, body: nat, close: nat)
    requires lo <= hi <= |s|
    requires FenceMatch(s[lo..hi], open, body, close)
    ensures FenceMatch(s, lo + open, lo + body, lo + close)
  {
    var t := s[lo..hi];
    IsAtSlice(s, lo, hi, Fence, open);
    IsAtSlice(s, lo, hi, Fence, close);
    assert s[lo + body - 1] == t[body - 1];
    forall k | lo + open + 3 <= k < lo + body - 1 ensures IsLangChar(s[k]) {
      assert s[k] == t[k - lo];
    }
    forall k: nat | lo + body <= k < lo + close ensures !IsAt(s, Fence, k) {
      IsAtSlice(s, lo, hi, Fence, k - lo);
    }
  }

  /** A slice with a fenced block means the whole string has one. */
  lemma FenceInSlice(s: string, lo: nat, hi: nat)
    requires lo <= hi <= |s| && HasFence(s[lo..hi])
    ensures HasFence(s)
  {
    var o: nat, b: nat, c: nat :| FenceMatch(s[lo..hi], o, b, c);
    FenceMatchInSlice(s, lo, hi, o, b, c);
  }

  /** Stripping cannot create a fenced block. */
  lemma StripKeepsNoFence(s: string)
    requires !HasFence(s)
    ensures !HasFence(Strip(s))
  {
    var i := StripSlice(s);
    if HasFence(Strip(s)) {
      FenceInSlice(s, i, i + |Strip(s)|);
    }
  }

  /** Text without a fence that is already stripped is left as it is. */
  lemma NormalizeFixed(s: string)
    requires !HasFence(s) && IsStripped(s)
    ensures NormalizeCode(s) == s
  {
    NormalizeCodeFences(s);
    StrippedIsFixed(s);
  }

  /** Normalizing a normalized reply changes nothing. */
  lemma NormalizeIdempotent(reply: string)
    ensures NormalizeCode(NormalizeCode(reply)) == NormalizeCode(reply)
  {
    var r := NormalizeCode(reply);
    NormalizeCodeFences(reply);
    if !HasFence(reply) {
      StripKeepsNoFence(reply);
    }
    assert !HasFence(r);
    NormalizeFixed(r);
  }

  // ----- guardrails -----

  const MainMessage := "Generated code must include `module main()`."
  const ImportMessage := "External `import()` statements are not allowed."
  const ImportCall := "import("

  /** `module\s+main\s*\(` matches at `p`, with "main" at `a` and the parenthesis at `b`. */
  ghost predicate MainDeclAt(s: string, p: nat, a: nat, b: nat) {
    && IsAt(s, "module", p)
    && p + 6 < a
    && IsAt(s, "main", a)
    && a + 4 <= b < |s|
    && s[b] == '('
    && (forall k :: p + 6 <= k < a ==> IsSpace(s[k]))
    && (forall k :: a + 4 <= k < b ==> IsSpace(s[k]))
  }

  /** `re.search(r"module\s+main\s*\(", s)` finds a match. */
  ghost predicate DeclaresMain(s: string) {
    exists p, a, b :: MainDeclAt(s, p, a, b)
  }

  /** Tries the pattern at one start position. */
  predicate MainAt(s: string, p: nat)
    requires p <= |s|
    ensures MainAt(s, p) <==> exists a, b :: MainDeclAt(s, p, a, b)
  {
    if !IsAt(s, "module", p) then false
    else
      var a := SkipWhile(s, p + 6, IsSpace);
      if a == p + 6 || !IsAt(s, "main", a) then
        assert forall a', b' :: !MainDeclAt(s, p, a', b') by {
          forall a', b' | MainDeclAt(s, p, a', b') ensures false {
            SkipWhileUnique(s, p + 6, a', IsSpace);
          }
        }
        false
      else
        var b := SkipWhile(s, a + 4, IsSpace);
        if b < |s| && s[b] == '(' then
          assert MainDeclAt(s, p, a, b);
          true
        else
          assert forall a', b' :: !MainDeclAt(s, p, a', b');
          false
  }

  /** Scans start positions left to right. */
  predicate SearchMain(s: string, from: nat)
    requires from <= |s|
    ensures SearchMain(s, from) <==> exists p, a, b :: from <= p && MainDeclAt(s, p, a, b)
    decreases |s| - from
  {
    MainAt(s, from) || (from < |s| && SearchMain(s, from + 1))
  }

  /**
   * The guardrail messages for generated code: the `module main()` message
   * when the declaration is missing, then the `import()` message when the
   * call appears anywhere.
   */
  function ApplyGuardrails(code: string): (r: seq<string>)
    ensures |r| <= 2
  {
    var errors := if SearchMain(code, 0) then [] else [MainMessage];
    if Contains(code, ImportCall) then errors + [ImportMessage] else errors
  }

  /**
   * The guardrail findings: the `module main()` message exactly when the
   * declaration is missing, then the `import()` message exactly when the
   * call appears; none at all exactly when both rules are kept.
   */
  lemma GuardrailFindings(code: string)
    ensures ApplyGuardrails(code) == (if DeclaresMain(code) then [] else [MainMessage])
               + (if Occurs(code, ImportCall) then [ImportMessage] else [])
    ensures ApplyGuardrails(code) == [] <==> DeclaresMain(code) && !Occurs(code, ImportCall)
  {
  }
}
