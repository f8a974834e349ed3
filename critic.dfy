/**
  The critic agent: it reviews another agent's output with three checks (hallucination,
  completeness, security), collects the failed checks as issues, and gives a verdict and
  a recommendation. The hallucination and security checks are placeholders that always
  pass; only the completeness check can fail.
*/
module Critic {
  import opened Wrappers
  import opened Dicts
  import opened Text

  /** A check's `severity`. */
  datatype Severity = Critical | Medium

  /** The dictionary a check returns: `check`, `passed`, `severity`, `message`. */
  datatype CheckResult = CheckResult(check: string, passed: bool, severity: Severity, message: string)

  /** `verdict`: `approved`, `issues`, `recommendation`. */
  datatype Verdict = Verdict(approved: bool, issues: seq<CheckResult>, recommendation: string)

  /** What `execute` returns: the "output is required" error, or a success with the verdict. */
  datatype Review = Rejected(message: string) | Reviewed(verdict: Verdict)

  // ---------------------------------------------------------------------------
  // Python's `repr` of a string, as `str(list)` writes each element
  // ---------------------------------------------------------------------------

  /** The quote `repr` puts around `s`: '"' when `s` holds a single quote and no double quote, else '\''. */
  function ReprQuote(s: string): char {
    if '\'' in s && '"' !in s then '"' else '\''
  }

  /**
    The characters `repr` writes as `\xhh`: the ASCII controls other than tab, newline and
    carriage return, DEL, and the unprintable Latin-1 characters (the C1 controls, the
    no-break space and the soft hyphen).
  */
  predicate HexEscaped(c: char) {
    || (c < ' ' && c != '\t' && c != '\n' && c != '\r')
    || ('\U{7F}' <= c <= '\U{A0}')
    || c == '\U{AD}'
  }

  /** A lower-case hexadecimal digit. */
  function HexDigit(d: nat): char
    requires d < 16
  {
    if d < 10 then (48 + d) as char else (87 + d) as char
  }

  /** The value of a lower-case hexadecimal digit (0 for any other character). */
  function HexValue(c: char): (d: nat)
    ensures d < 16
  {
    if '0' <= c <= '9' then c as int - 48
    else if 'a' <= c <= 'f' then c as int - 87
    else 0
  }

  /** How `repr` writes one character inside the quote `q`. */
  function Escape(c: char, q: char): string {
    if c == q || c == '\\' then ['\\', c]
    else if c == '\t' then "\\t"
    else if c == '\n' then "\\n"
    else if c == '\r' then "\\r"
    else if HexEscaped(c) then
      assert c as int < 256;
      ['\\', 'x', HexDigit(c as int / 16), HexDigit(c as int % 16)]
    else [c]
  }

  /** The characters of `s` written as `repr` writes them inside the quote `q`. */
  function EscapeAll(s: string, q: char): string {
    if s == [] then [] else Escape(s[0], q) + EscapeAll(s[1..], q)
  }

  /** `repr(s)` for a string `s`. */
  function Repr(s: string): (r: string)
    ensures |r| >= 2 && r[0] == r[|r| - 1] == ReprQuote(s)
    ensures r == [ReprQuote(s)] + EscapeAll(s, ReprQuote(s)) + [ReprQuote(s)]
  {
    var q := ReprQuote(s);
    [q] + EscapeAll(s, q) + [q]
  }

  /**
    Reading back the text between the quotes of a `repr`: a backslash starts an escape
    (`\xhh`, `\t`, `\n`, `\r`, or a backslash or quote standing for itself), and any other
    character stands for itself.
  */
  function Unescape(t: string): string
    decreases |t|
  {
    if t == [] then []
    else if t[0] == '\\' && |t| >= 2 then
      if t[1] == 'x' && |t| >= 4 then [(HexValue(t[2]) * 16 + HexValue(t[3])) as char] + Unescape(t[4..])
      else if t[1] == 't' then ['\t'] + Unescape(t[2..])
      else if t[1] == 'n' then ['\n'] + Unescape(t[2..])
      else if t[1] == 'r' then ['\r'] + Unescape(t[2..])
      else [t[1]] + Unescape(t[2..])
    else [t[0]] + Unescape(t[1..])
  }

  /** Reading back one escaped character gives the character. */
  lemma UnescapeOne(c: char, q: char, rest: string)
    requires q == '\'' || q == '"'
    ensures Unescape(Escape(c, q) + rest) == [c] + Unescape(rest)
  {
    var e := Escape(c, q);
    if HexEscaped(c) && !(c == q || c == '\\' || c == '\t' || c == '\n' || c == '\r') {
      var n := c as int;
      assert HexValue(HexDigit(n / 16)) == n / 16 && HexValue(HexDigit(n % 16)) == n % 16;
      assert (e + rest)[4..] == rest;
    } else if |e| == 2 {
      assert (e + rest)[2..] == rest;
    } else {
      assert (e + rest)[1..] == rest;
    }
  }

  /** Reading back what `repr` writes between its quotes gives the original string. */
  lemma {:induction false} UnescapeEscapeAll(s: string, q: char)
    requires q == '\'' || q == '"'
    ensures Unescape(EscapeAll(s, q)) == s
  {
    if s != [] {
      UnescapeOne(s[0], q, EscapeAll(s[1..], q));
      UnescapeEscapeAll(s[1..], q);
    }
  }

  /** `repr` is read back exactly: the text between its quotes decodes to the string. */
  lemma ReprRoundTrip(s: string)
    ensures var r := Repr(s); Unescape(r[1..|r| - 1]) == s
  {
    var q := ReprQuote(s);
    var r := Repr(s);
    assert r[1..|r| - 1] == EscapeAll(s, q);
    UnescapeEscapeAll(s, q);
  }

  /** Every `q` in `t` follows a backslash. */
  predicate QuotesEscaped(t: string, q: char) {
    forall i :: 0 <= i < |t| && t[i] == q ==> i > 0 && t[i - 1] == '\\'
  }

  /** Inside the quotes, the quote character only ever follows a backslash: the first bare quote closes the string. */
  lemma {:induction false} QuoteEscaped(s: string, q: char)
    requires q == '\'' || q == '"'
    ensures QuotesEscaped(EscapeAll(s, q), q)
  {
    if s != [] {
      var e, t := Escape(s[0], q), EscapeAll(s[1..], q);
      QuoteEscaped(s[1..], q);
      assert QuotesEscaped(t, q);
      EscapeQuote(s[0], q);
      assert EscapeAll(s, q) == e + t;
      forall i | 0 <= i < |e + t| && (e + t)[i] == q ensures i > 0 && (e + t)[i - 1] == '\\' {
        if i < |e| {
          assert e[i] == q;
          assert (e + t)[i - 1] == e[i - 1];
        } else {
          var k := i - |e|;
          assert t[k] == q;
          assert (e + t)[i - 1] == t[k - 1];
        }
      }
    }
  }

  /** Within one escaped character, the quote appears only as the second character of `\` and the quote. */
  lemma EscapeQuote(c: char, q: char)
    requires q == '\'' || q == '"'
    ensures var e := Escape(c, q);
      |e| > 0 && e[0] != q && forall i :: 0 <= i < |e| && e[i] == q ==> i == 1 && e[0] == '\\'
  {
  }

  /** A character `repr` copies unchanged inside the quote `q`. */
  predicate Plain(c: char, q: char) {
    c != q && c != '\\' && c != '\t' && c != '\n' && c != '\r' && !HexEscaped(c)
  }

  /** A string of plain characters is written between single quotes, unchanged. */
  lemma PlainRepr(s: string)
    requires forall i :: 0 <= i < |s| ==> Plain(s[i], '\'')
    ensures Repr(s) == "'" + s + "'"
  {
    assert forall i :: 0 <= i < |s| ==> s[i] != '\'';
    PlainEscapeAll(s, '\'');
  }

  /** Plain characters are copied unchanged. */
  lemma {:induction false} PlainEscapeAll(s: string, q: char)
    requires forall i :: 0 <= i < |s| ==> Plain(s[i], q)
    ensures EscapeAll(s, q) == s
  {
    if s != [] {
      PlainEscapeAll(s[1..], q);
      assert s == [s[0]] + s[1..];
    }
  }

  /**
    A name holding a single quote, and otherwise only characters copied unchanged, is
    written in double quotes, with the single quote left as it is.
  */
  lemma ApostropheRepr(s: string)
    requires '\'' in s && forall i :: 0 <= i < |s| ==> Plain(s[i], '"')
    ensures Repr(s) == "\"" + s + "\""
  {
    assert forall i :: 0 <= i < |s| ==> s[i] != '"';
    PlainEscapeAll(s, '"');
  }

  /** A backslash is doubled and a newline becomes `\n`. */
  lemma EscapesRepr()
    ensures Repr("a\\\n") == "'a\\\\\\n'"
  {
    assert EscapeAll("\n", '\'') == "\\n";
    assert EscapeAll("\\\n", '\'') == "\\\\\\n";
  }

  /** `str` of a list of strings: each element's `repr`, separated by ", ", in brackets. */
  function ListRepr(xs: seq<string>): string {
    "[" + Join(seq(|xs|, i requires 0 <= i < |xs| => Repr(xs[i])), ", ") + "]"
  }

  /** `_check_hallucination`: a placeholder that always passes. */
  function CheckHallucination(): (c: CheckResult)
    ensures c.check == "hallucination" && c.passed && c.severity == Critical
  {
    CheckResult("hallucination", true, Critical, "No obvious hallucinations detected")
  }

  /** The entries of `required` that are not keys of `output`, in `required`'s order. */
  function Missing(required: seq<string>, output: Dict<string, string>): (m: seq<string>)
    ensures |m| <= |required|
  {
    if required == [] then []
    else
      var rest := Missing(required[..|required| - 1], output);
      var f := required[|required| - 1];
      assert required == required[..|required| - 1] + [f];
      if f in Keys(output) then rest else rest + [f]
  }

  /** A field is missing exactly when it is required and not a key of the output. */
  lemma {:induction false} MissingSpec(required: seq<string>, output: Dict<string, string>, f: string)
    ensures f in Missing(required, output) <==> f in required && f !in Keys(output)
  {
    if required != [] {
      var init := required[..|required| - 1];
      MissingSpec(init, output, f);
      assert required == init + [required[|required| - 1]];
    }
  }

  /** A missing field such as "it's" is listed in double quotes, as `str` of the list writes it. */
  lemma ApostropheMissing(output: Dict<string, string>, f: string)
    requires f !in Keys(output)
    requires '\'' in f && forall i :: 0 <= i < |f| ==> Plain(f[i], '"')
    ensures CheckCompleteness(output, [f]).message == "Missing fields: [\"" + f + "\"]"
  {
    OneMissing(output, f);
    ApostropheRepr(f);
    OneListed(f);
    assert "Missing fields: " + ("[" + ("\"" + f + "\"") + "]") == "Missing fields: [\"" + f + "\"]";
  }

  /** A single required field that the output lacks is reported missing. */
  lemma OneMissing(output: Dict<string, string>, f: string)
    requires f !in Keys(output)
    ensures Missing([f], output) == [f]
  {
    assert [f][..0] == [];
  }

  /** A list of one string is that string's `repr` in brackets. */
  lemma OneListed(f: string)
    ensures ListRepr([f]) == "[" + Repr(f) + "]"
  {
  }

  /** The completeness check passes exactly when every required field is a key of the output. */
  lemma CompletenessPasses(output: Dict<string, string>, required: seq<string>)
    ensures CheckCompleteness(output, required).passed <==> forall f :: f in required ==> f in Keys(output)
  {
    var m := Missing(required, output);
    if m != [] {
      MissingSpec(required, output, m[0]);
    } else {
      forall f | f in required ensures f in Keys(output) {
        MissingSpec(required, output, f);
      }
    }
  }

  /** `_check_completeness`: every required field must be a key of the output. */
  function CheckCompleteness(output: Dict<string, string>, required: seq<string>): (c: CheckResult)
    ensures c.check == "completeness" && c.severity == Medium
    ensures c.passed <==> Missing(required, output) == []
    ensures !c.passed ==> c.message == "Missing fields: " + ListRepr(Missing(required, output))
  {
    var missing := Missing(required, output);
    CheckResult("completeness", |missing| == 0, Medium,
                if missing != [] then "Missing fields: " + ListRepr(missing) else "All required fields present")
  }

  /** `_check_security`: a placeholder that always passes. */
  function CheckSecurity(): (c: CheckResult)
    ensures c.check == "security" && c.passed && c.severity == Critical
  {
    CheckResult("security", true, Critical, "No security concerns detected")
  }

  /** `self.checks` run on the output, in their list order. */
  function Checks(output: Dict<string, string>, required: seq<string>): seq<CheckResult> {
    [CheckHallucination(), CheckCompleteness(output, required), CheckSecurity()]
  }

  /** The failed checks, in order. */
  function Failed(cs: seq<CheckResult>): (issues: seq<CheckResult>)
    ensures |issues| <= |cs|
  {
    if cs == [] then []
    else
      var last := cs[|cs| - 1];
      assert cs == cs[..|cs| - 1] + [last];
      Failed(cs[..|cs| - 1]) + (if last.passed then [] else [last])
  }

  /** `[i for i in issues if i.get("severity") == "critical"]`. */
  function CriticalIssues(issues: seq<CheckResult>): (cs: seq<CheckResult>)
    ensures |cs| <= |issues|
  {
    if issues == [] then []
    else
      var last := issues[|issues| - 1];
      assert issues == issues[..|issues| - 1] + [last];
      CriticalIssues(issues[..|issues| - 1]) + (if last.severity == Critical then [last] else [])
  }

  /** There is no critical issue exactly when no issue is critical. */
  lemma {:induction false} NoCriticalIssue(issues: seq<CheckResult>)
    ensures CriticalIssues(issues) == [] <==> forall c :: c in issues ==> c.severity != Critical
  {
    if issues != [] {
      var init := issues[..|issues| - 1];
      NoCriticalIssue(init);
      assert issues == init + [issues[|issues| - 1]];
    }
  }

  /** The messages of the given issues. */
  function Messages(issues: seq<CheckResult>): seq<string> {
    seq(|issues|, i requires 0 <= i < |issues| => issues[i].message)
  }

  /**
    `_generate_recommendation`: approval without issues, rejection quoting the critical
    messages when an issue is critical, and otherwise a warning that counts the issues.
  */
  function Recommendation(issues: seq<CheckResult>): (r: string)
    ensures issues == [] ==> r == "Output approved. Ready for user consumption."
    ensures (exists c :: c in issues && c.severity == Critical) ==>
      r == "REJECT: Critical issues found: " + ListRepr(Messages(CriticalIssues(issues)))
    ensures issues != [] && (forall c :: c in issues ==> c.severity != Critical) ==>
      r == Warning(|issues|)
  {
    NoCriticalIssue(issues);
    if issues == [] then "Output approved. Ready for user consumption."
    else
      var critical := CriticalIssues(issues);
      if critical != [] then "REJECT: Critical issues found: " + ListRepr(Messages(critical))
      else Warning(|issues|)
  }

  /** The recommendation for `n` issues, none of them critical. */
  function Warning(n: nat): string {
    "APPROVE WITH WARNING: " + NatToString(n) + " non-critical issues found"
  }

  /** Python truthiness of the `output` entry: missing, or an empty dictionary, is falsy. */
  predicate Present(output: Option<Dict<string, string>>) {
    output.Some? && output.value != []
  }

  /**
    `execute`: with no output, the error and no check run; otherwise every check is run
    in order, the failed ones are the issues, and the output is approved exactly when
    none of them is critical.
  */
  method Execute(output: Option<Dict<string, string>>, required: seq<string>) returns (r: Review)
    ensures !Present(output) ==> r == Rejected("output is required")
    ensures Present(output) ==> r.Reviewed?
    ensures Present(output) ==>
      var issues := Failed(Checks(output.value, required));
      && r.verdict.issues == issues
      && (r.verdict.approved <==> forall c :: c in issues ==> c.severity != Critical)
      && r.verdict.recommendation == Recommendation(issues)
  {
    if !Present(output) {
      return Rejected("output is required");
    }
    var issues := CollectFailed(Checks(output.value, required));
    var critical := CriticalIssues(issues);
    NoCriticalIssue(issues);
    return Reviewed(Verdict(|critical| == 0, issues, Recommendation(issues)));
  }

  /** The loop over `self.checks`: each check that did not pass is appended to the issues. */
  method CollectFailed(checks: seq<CheckResult>) returns (issues: seq<CheckResult>)
    ensures issues == Failed(checks)
  {
    issues := [];
    for i := 0 to |checks|
      invariant issues == Failed(checks[..i])
    {
      assert checks[..i + 1][..i] == checks[..i];
      if !checks[i].passed {
        issues := issues + [checks[i]];
      }
    }
    assert checks[..|checks|] == checks;
  }

  /**
    Only the completeness check can fail, so the issues are at most that one check, and
    a review of present output is always approved.
  */
  lemma {:induction false} AlwaysApproved(output: Dict<string, string>, required: seq<string>)
    ensures var issues := Failed(Checks(output, required));
      && issues == (if CheckCompleteness(output, required).passed then [] else [CheckCompleteness(output, required)])
      && CriticalIssues(issues) == []
  {
    var c := CheckCompleteness(output, required);
    OnlyMiddleFails(CheckHallucination(), c, CheckSecurity());
    var issues := if c.passed then [] else [c];
    assert issues == [] || issues[..0] == [];
  }

  /** Of three checks whose first and last pass, only the middle one can be an issue. */
  lemma OnlyMiddleFails(h: CheckResult, c: CheckResult, x: CheckResult)
    requires h.passed && x.passed
    ensures Failed([h, c, x]) == if c.passed then [] else [c]
  {
    var cs := [h, c, x];
    assert cs[..2] == [h, c] && cs[..2][..1] == [h];
    assert [h][..0] == [];
    assert Failed([h]) == [];
    assert Failed(cs[..2]) == if c.passed then [] else [c];
  }


  /** A review of present output with a missing required field warns about exactly one issue. */
  lemma MissingFieldWarns(output: Dict<string, string>, required: seq<string>, f: string)
    requires f in required && f !in Keys(output)
    ensures Recommendation(Failed(Checks(output, required))) == Warning(1)
  {
    MissingSpec(required, output, f);
    AlwaysApproved(output, required);
    var issues := Failed(Checks(output, required));
    assert issues == [CheckCompleteness(output, required)];
    assert CriticalIssues(issues) == [];
  }
}
