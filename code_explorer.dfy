/**
  The code explorer: import scanning over Python and JavaScript source text, and the
  placeholder results of the repository queries that have no implementation yet.

  Each regular expression is a matcher (see `Search`); `re.finditer` is `Search.All`.
  `list(set(...))` gives the distinct names in an order Python leaves unspecified, so the
  contracts state only which names are present and that none repeats.
*/
module CodeExplorer {
  import opened Wrappers
  import opened Dicts
  import opened Text
  import opened Search

  // ---------------------------------------------------------------------------
  // Python imports
  // ---------------------------------------------------------------------------

  /** `^` under `re.MULTILINE`: the start of the text or just after a newline. */
  predicate LineStart(s: string, k: nat) {
    k == 0 || (k <= |s| && s[k - 1] == '\n')
  }

  /**
    `kw` at the line start `k`, at least one whitespace character, then `x`: a non-empty
    word that runs up to a non-word character or the end of the text.
  */
  predicate WordAfter(s: string, kw: string, k: nat, x: string) {
    && LineStart(s, k) && OccursAt(s, kw, k)
    && var j := RunEnd(s, k + |kw|, IsSpace);
       && j > k + |kw| && OccursAt(s, x, j)
       && x != [] && (forall i :: 0 <= i < |x| ==> IsWordChar(x[i]))
       && (j + |x| == |s| || !IsWordChar(s[j + |x|]))
  }

  /**
    `^kw\s+(\w+)` at `k`: the keyword at a line start, whitespace (which may run over
    newlines), then the word it captures.
  */
  function StatementAt(kw: string, s: string, k: nat): (r: Option<(nat, string)>)
    ensures r.Some? ==> LineStart(s, k) && OccursAt(s, kw, k)
    ensures r.Some? ==> k < r.value.0 <= |s| && r.value.1 != []
    ensures r.Some? ==> forall i :: 0 <= i < |r.value.1| ==> IsWordChar(r.value.1[i])
  {
    if LineStart(s, k) && OccursAt(s, kw, k) then
      var j := RunEnd(s, k + |kw|, IsSpace);
      var e := RunEnd(s, j, IsWordChar);
      if j == k + |kw| || e == j then None else Some((e, s[j..e]))
    else None
  }

  /** `^import\s+(\w+)`. */
  function ImportStatement(s: string, k: nat): Option<(nat, string)> {
    StatementAt("import", s, k)
  }

  /** `^from\s+(\w+)`. */
  function FromStatement(s: string, k: nat): Option<(nat, string)> {
    StatementAt("from", s, k)
  }

  /**
    `x` is the whole word that follows "import" or "from", and whitespace, at the start of
    some line of `content`.
  */
  ghost predicate ImportedName(content: string, x: string) {
    exists k: nat :: k <= |content| && (WordAfter(content, "import", k, x) || WordAfter(content, "from", k, x))
  }

  /** Every name the two scans of `parse_python_imports` find, before the set conversion. */
  function PythonNames(content: string): (r: seq<string>)
    ensures forall x :: x in r ==> ImportedName(content, x)
  {
    PythonNamesFound(content);
    All(content, 0, ImportStatement) + All(content, 0, FromStatement)
  }

  /** Each capture of the two Python scans is a word after a keyword at a line start. */
  lemma PythonNamesFound(content: string)
    ensures forall x :: x in All(content, 0, ImportStatement) + All(content, 0, FromStatement) ==> ImportedName(content, x)
  {
    forall x | x in All(content, 0, ImportStatement) + All(content, 0, FromStatement)
      ensures ImportedName(content, x)
    {
      if x in All(content, 0, ImportStatement) {
        AllFound(content, ImportStatement, x);
        var k, e :| 0 <= k <= |content| && ImportStatement(content, k) == Some((e, x));
        StatementWord("import", content, k);
      } else {
        AllFound(content, FromStatement, x);
        var k, e :| 0 <= k <= |content| && FromStatement(content, k) == Some((e, x));
        StatementWord("from", content, k);
      }
    }
  }

  /** A capture of `^kw\s+(\w+)` at `k` is the whole word after the keyword and its whitespace. */
  lemma StatementWord(kw: string, s: string, k: nat)
    requires StatementAt(kw, s, k).Some?
    ensures WordAfter(s, kw, k, StatementAt(kw, s, k).value.1)
  {
  }

  /**
    A keyword at a line start (after `pre`, which is empty or ends in a newline), a space
    and a word: the word is captured, up to the first non-word character.
  */
  lemma LeadingStatement(kw: string, pre: string, w: string, rest: string)
    requires pre == [] || pre[|pre| - 1] == '\n'
    requires w != [] && forall i :: 0 <= i < |w| ==> IsWordChar(w[i])
    requires rest == [] || !IsWordChar(rest[0])
    ensures StatementAt(kw, pre + kw + " " + w + rest, |pre|) == Some((|pre| + |kw| + 1 + |w|, w))
  {
    var s := pre + kw + " " + w + rest;
    var j := |pre| + |kw| + 1;
    KeywordLine(kw, pre, w, rest);
    WordAfterKeyword(kw, pre, w, rest);
    StatementFrom(kw, s, |pre|, j, j + |w|);
  }

  /** The keyword after `pre` stands at a line start, and the single space after it is the whole whitespace run. */
  lemma KeywordLine(kw: string, pre: string, w: string, rest: string)
    requires pre == [] || pre[|pre| - 1] == '\n'
    requires w != [] && IsWordChar(w[0])
    ensures var s := pre + kw + " " + w + rest;
      && LineStart(s, |pre|) && OccursAt(s, kw, |pre|)
      && RunEnd(s, |pre| + |kw|, IsSpace) == |pre| + |kw| + 1
  {
    var s := pre + kw + " " + w + rest;
    var n := |pre|;
    var j := n + |kw| + 1;
    assert LineStart(s, n) by {
      if n > 0 { assert s[n - 1] == pre[n - 1]; }
    }
    assert s[n..n + |kw|] == kw;
    assert IsSpace(s[n + |kw|]) && s[j] == w[0];
    RunEndPast(s, n + |kw|, IsSpace, j);
  }

  /** The word after the keyword and its space is the word run there. */
  lemma WordAfterKeyword(kw: string, pre: string, w: string, rest: string)
    requires forall i :: 0 <= i < |w| ==> IsWordChar(w[i])
    requires rest == [] || !IsWordChar(rest[0])
    ensures var s := pre + kw + " " + w + rest; var j := |pre| + |kw| + 1;
      && j + |w| <= |s| && s[j..j + |w|] == w
      && RunEnd(s, j, IsWordChar) == j + |w|
  {
    var s := pre + kw + " " + w + rest;
    var j := |pre| + |kw| + 1;
    assert s[j..j + |w|] == w;
    assert j + |w| == |s| || s[j + |w|] == rest[0];
    WordRunAt(s, j, w);
  }

  /** `^kw\s+(\w+)` at `k`, spelled out: the keyword, the whitespace run to `j`, the word run to `e`. */
  lemma StatementFrom(kw: string, s: string, k: nat, j: nat, e: nat)
    requires LineStart(s, k) && OccursAt(s, kw, k)
    requires RunEnd(s, k + |kw|, IsSpace) == j && j > k + |kw|
    requires RunEnd(s, j, IsWordChar) == e && e > j
    ensures StatementAt(kw, s, k) == Some((e, s[j..e]))
  {
  }

  /** A whole word at `j`, followed by a non-word character or the end, is the word run at `j`. */
  lemma WordRunAt(s: string, j: nat, w: string)
    requires j + |w| <= |s| && s[j..j + |w|] == w
    requires forall i :: 0 <= i < |w| ==> IsWordChar(w[i])
    requires j + |w| == |s| || !IsWordChar(s[j + |w|])
    ensures RunEnd(s, j, IsWordChar) == j + |w|
  {
    forall i | j <= i < j + |w| ensures IsWordChar(s[i]) {
      assert s[i] == s[j..j + |w|][i - j];
    }
    RunEndPast(s, j, IsWordChar, j + |w|);
  }

  /** A run over `[i, m)` that stops at `m` ends at `m`. */
  lemma RunEndPast(s: string, i: nat, p: char -> bool, m: nat)
    requires i <= m <= |s|
    requires forall k :: i <= k < m ==> p(s[k])
    requires m == |s| || !p(s[m])
    ensures RunEnd(s, i, p) == m
    decreases m - i
  {
    if i < m {
      RunEndPast(s, i + 1, p, m);
    }
  }

  /**
    "import os.path" at a line start reports "os", the word after the keyword, when no
    match that starts on an earlier line runs past that line start.
  */
  lemma ImportOnLine(pre: string, w: string, rest: string)
    requires pre == [] || pre[|pre| - 1] == '\n'
    requires w != [] && forall i :: 0 <= i < |w| ==> IsWordChar(w[i])
    requires rest == [] || !IsWordChar(rest[0])
    requires var s := pre + "import " + w + rest;
      forall k :: 0 <= k < |pre| && ImportStatement(s, k).Some? ==> ImportStatement(s, k).value.0 <= |pre|
    ensures w in PythonNames(pre + "import " + w + rest)
  {
    var s := pre + "import " + w + rest;
    assert s == pre + "import" + " " + w + rest;
    LeadingStatement("import", pre, w, rest);
    AllReaches(s, 0, ImportStatement, |pre|);
  }

  /**
    A one-line text that does not itself begin with "import" or "from" reports nothing:
    an indented statement is not at a line start.
  */
  lemma IndentedIgnored(content: string)
    requires '\n' !in content
    requires !StartsWith(content, "import") && !StartsWith(content, "from")
    ensures PythonNames(content) == []
  {
    forall k | 0 <= k <= |content|
      ensures ImportStatement(content, k).None? && FromStatement(content, k).None?
    {
      if k > 0 {
        assert content[k - 1] != '\n';
      } else {
        assert !OccursAt(content, "import", 0) && !OccursAt(content, "from", 0);
      }
    }
    AllHead(content, 0, ImportStatement);
    AllHead(content, 0, FromStatement);
  }

  // ---------------------------------------------------------------------------
  // JavaScript imports
  // ---------------------------------------------------------------------------

  predicate IsQuote(c: char) {
    c == '\'' || c == '"'
  }

  /** The end of the line holding index `i`: the next newline, or the end of the text. */
  function LineEnd(s: string, i: nat): (e: nat)
    requires i <= |s|
    ensures i <= e <= |s|
    ensures forall k :: i <= k < e ==> s[k] != '\n'
    ensures e == |s| || s[e] == '\n'
  {
    RunEnd(s, i, c => c != '\n')
  }

  /** A closing quote at `e`. */
  predicate QuoteClose(s: string, e: nat) {
    e < |s| && IsQuote(s[e])
  }

  /** A closing quote at `e` followed by ')'. */
  predicate QuoteParenClose(s: string, e: nat) {
    e + 1 < |s| && IsQuote(s[e]) && s[e + 1] == ')'
  }

  /**
    `['"](.+?)` followed by a closing that `close` recognises, with the quote at `a`: the
    index of the closing and the text between, which is at least one character and never
    crosses a newline (`.` does not match one).
  */
  function QuotedAt(s: string, a: nat, close: (string, nat) -> bool): (r: Option<(nat, string)>)
    ensures r.Some? ==> a < |s| && IsQuote(s[a])
    ensures r.Some? ==> a + 1 < r.value.0 <= |s| && close(s, r.value.0) && r.value.1 == s[a + 1..r.value.0]
    ensures r.Some? ==> r.value.1 != [] && '\n' !in r.value.1
  {
    if a < |s| && IsQuote(s[a]) then
      var le := LineEnd(s, a + 1);
      match FirstAt(s, a + 2, le, close)
      case Some(e) =>
        var t := s[a + 1..e];
        assert forall i :: 0 <= i < |t| ==> t[i] == s[a + 1 + i];
        Some((e, t))
      case None => None
    else None
  }

  /** A quote at `a`, then the non-empty one-line text `x`, then another quote. */
  predicate QuotedText(s: string, a: nat, x: string) {
    && a < |s| && IsQuote(s[a])
    && x != [] && '\n' !in x && OccursAt(s, x, a + 1)
    && a + 1 + |x| < |s| && IsQuote(s[a + 1 + |x|])
  }

  /** "require(" at `k`, then `x` in quotes, then ')'. */
  predicate RequireClause(s: string, k: nat, x: string) {
    OccursAt(s, "require(", k) && QuotedText(s, k + 8, x) && k + 10 + |x| < |s| && s[k + 10 + |x|] == ')'
  }

  /** "from" at `j`, at least one whitespace character, then `x` in quotes. */
  predicate FromClause(s: string, j: nat, x: string) {
    && OccursAt(s, "from", j)
    && var a := RunEnd(s, j + 4, IsSpace);
       a > j + 4 && QuotedText(s, a, x)
  }

  /** "import" at `k` and, later on the same line, a "from" clause at `j` that quotes `x`. */
  predicate ImportFromClause(s: string, k: nat, j: nat, x: string) {
    && OccursAt(s, "import", k) && k + 6 <= j <= |s|
    && (forall i :: k + 6 <= i < j ==> s[i] != '\n')
    && FromClause(s, j, x)
  }

  /**
    `x` is quoted in a `require('x')` call, or in a "from" clause on a line after "import"
    somewhere in `s`.
  */
  ghost predicate JavascriptSpecifier(s: string, x: string) {
    || (exists k: nat :: k <= |s| && RequireClause(s, k, x))
    || (exists k: nat, j: nat :: k <= j <= |s| && ImportFromClause(s, k, j, x))
  }

  /** `from\s+['"](.+?)['"]` at `j`. */
  function FromClauseAt(s: string, j: nat): (r: Option<(nat, string)>)
    ensures r.Some? ==> j < r.value.0 <= |s|
    ensures r.Some? ==> FromClause(s, j, r.value.1)
    ensures r.Some? ==> r.value.1 != [] && '\n' !in r.value.1
  {
    if OccursAt(s, "from", j) then
      var w := RunEnd(s, j + 4, IsSpace);
      if w == j + 4 then None
      else
        match QuotedAt(s, w, QuoteClose)
        case Some((e, m)) =>
          QuotedAtText(s, w);
          Some((e + 1, m))
        case None => None
    else None
  }

  /** What `['"](.+?)['"]` matches at `a` is a quoted text ending just before its closing quote. */
  lemma QuotedAtText(s: string, a: nat)
    requires QuotedAt(s, a, QuoteClose).Some?
    ensures var (e, m) := QuotedAt(s, a, QuoteClose).value; e < |s| && QuotedText(s, a, m)
  {
    var (e, m) := QuotedAt(s, a, QuoteClose).value;
    assert s[a + 1..e] == m && e == a + 1 + |m|;
  }

  predicate HasFromClause(s: string, j: nat) {
    FromClauseAt(s, j).Some?
  }

  /**
    Where the lazy `.*?` of `import.*?from` stops after "import" at `k`: the first index on
    the same line at which a "from" clause matches.
  */
  function FromAfterImport(s: string, k: nat): (r: Option<nat>)
    ensures r.Some? ==> OccursAt(s, "import", k) && k + 6 <= r.value <= |s| && HasFromClause(s, r.value)
    ensures r.Some? ==> forall i :: k + 6 <= i < r.value ==> s[i] != '\n'
    ensures r.Some? ==> forall i :: k + 6 <= i < r.value ==> !HasFromClause(s, i)
    ensures OccursAt(s, "import", k) && r.None? ==> forall i :: k + 6 <= i <= LineEnd(s, k + 6) ==> !HasFromClause(s, i)
  {
    if OccursAt(s, "import", k) then
      var le := LineEnd(s, k + 6);
      var f := FirstAt(s, k + 6, le + 1, HasFromClause);
      f
    else None
  }

  /** `import.*?from\s+['"](.+?)['"]` at `k`. */
  function ImportFromAt(s: string, k: nat): (r: Option<(nat, string)>)
    ensures r.Some? ==> k < r.value.0 <= |s|
    ensures r.Some? ==> OccursAt(s, "import", k) && r.value.1 != [] && '\n' !in r.value.1
  {
    match FromAfterImport(s, k)
    case Some(j) => FromClauseAt(s, j)
    case None => None
  }

  /** `require\(['"](.+?)['"]\)` at `k`. */
  function RequireAt(s: string, k: nat): (r: Option<(nat, string)>)
    ensures r.Some? ==> k < r.value.0 <= |s|
    ensures r.Some? ==> OccursAt(s, "require(", k) && r.value.1 != [] && '\n' !in r.value.1
    ensures r.Some? ==> RequireClause(s, k, r.value.1)
  {
    if OccursAt(s, "require(", k) then
      match QuotedAt(s, k + 8, QuoteParenClose)
      case Some((e, m)) =>
        assert s[k + 9..e] == m && e == k + 9 + |m|;
        Some((e + 2, m))
      case None => None
    else None
  }

  /** Every specifier the two scans of `parse_javascript_imports` find, before the set conversion. */
  function JavascriptNames(content: string): (r: seq<string>)
    ensures forall x :: x in r ==> JavascriptSpecifier(content, x)
  {
    JavascriptNamesFound(content);
    All(content, 0, ImportFromAt) + All(content, 0, RequireAt)
  }

  /** Each capture of the two JavaScript scans is quoted in a `require` call or an import's "from" clause. */
  lemma JavascriptNamesFound(content: string)
    ensures forall x :: x in All(content, 0, ImportFromAt) + All(content, 0, RequireAt) ==> JavascriptSpecifier(content, x)
  {
    forall x | x in All(content, 0, ImportFromAt) + All(content, 0, RequireAt)
      ensures JavascriptSpecifier(content, x)
    {
      if x in All(content, 0, ImportFromAt) {
        AllFound(content, ImportFromAt, x);
        var k, e :| 0 <= k <= |content| && ImportFromAt(content, k) == Some((e, x));
        var j := ImportFromClauseAt(content, k);
        assert ImportFromClause(content, k, j, x);
      } else {
        AllFound(content, RequireAt, x);
        var k, e :| 0 <= k <= |content| && RequireAt(content, k) == Some((e, x));
        assert RequireClause(content, k, x);
      }
    }
  }

  /** A capture of `import.*?from\s+['"](.+?)['"]` at `k` comes from a "from" clause at some `j` on the same line. */
  lemma ImportFromClauseAt(s: string, k: nat) returns (j: nat)
    requires ImportFromAt(s, k).Some?
    ensures k <= j <= |s| && ImportFromClause(s, k, j, ImportFromAt(s, k).value.1)
  {
    j := FromAfterImport(s, k).value;
  }

  /** A quote at `a`, then quote- and newline-free text up to a closing at `c`: the text is captured. */
  lemma QuotedHit(s: string, a: nat, c: nat, close: (string, nat) -> bool)
    requires a + 2 <= c < |s| && IsQuote(s[a]) && close(s, c)
    requires forall i :: a + 1 <= i <= c ==> s[i] != '\n'
    requires forall i :: a + 2 <= i < c ==> !close(s, i)
    ensures QuotedAt(s, a, close) == Some((c, s[a + 1..c]))
  {
    var le := LineEnd(s, a + 1);
    assert c < le;
  }

  /** The text of `require('m')` at `k`, character by character. */
  lemma RequireText(s: string, k: nat, m: string, rest: string)
    requires k <= |s| && s[k..] == "require('" + m + "')" + rest
    ensures k + 11 + |m| <= |s| && OccursAt(s, "require(", k) && s[k + 8] == '\''
    ensures s[k + 9..k + 9 + |m|] == m && s[k + 9 + |m|] == '\'' && s[k + 10 + |m|] == ')'
  {
    var t := s[k..];
    var c := k + 9 + |m|;
    assert t[..8] == "require(" && t[8] == '\'' && t[9 + |m|] == '\'' && t[10 + |m|] == ')';
    assert s[k..k + 8] == t[..8];
    assert s[k + 8] == t[8] && s[c] == t[9 + |m|] && s[c + 1] == t[10 + |m|];
    forall i | k + 9 <= i < c ensures s[i] == m[i - (k + 9)] {
      assert s[i] == t[i - k];
    }
  }

  /** `require('m')` at `k` reports `m` when `m` holds no quote or newline. */
  lemma RequireSpecifier(s: string, k: nat, m: string, rest: string)
    requires k <= |s| && s[k..] == "require('" + m + "')" + rest
    requires m != [] && forall i :: 0 <= i < |m| ==> !IsQuote(m[i]) && m[i] != '\n'
    ensures RequireAt(s, k) == Some((k + |m| + 11, m))
  {
    RequireText(s, k, m, rest);
    var c := k + 9 + |m|;
    assert forall i :: k + 9 <= i < c ==> s[i] == m[i - (k + 9)];
    QuotedHit(s, k + 8, c, QuoteParenClose);
  }

  /**
    `require('m')` after `pre` reports `m`, when `m` holds no quote or newline and no
    match that starts inside `pre` runs past its end.
  */
  lemma RequireFound(pre: string, m: string, rest: string)
    requires m != [] && forall i :: 0 <= i < |m| ==> !IsQuote(m[i]) && m[i] != '\n'
    requires var s := pre + "require('" + m + "')" + rest;
      forall k :: 0 <= k < |pre| && RequireAt(s, k).Some? ==> RequireAt(s, k).value.0 <= |pre|
    ensures m in JavascriptNames(pre + "require('" + m + "')" + rest)
  {
    var s := pre + "require('" + m + "')" + rest;
    assert s[|pre|..] == "require('" + m + "')" + rest;
    RequireSpecifier(s, |pre|, m, rest);
    AllReaches(s, 0, RequireAt, |pre|);
  }

  /**
    "import" at `k`, then no newline and no "from" clause up to `from 'm'` at `j`, reports
    `m`, when `m` holds no quote or newline and no match that starts before `k` runs
    past `k`.
  */
  lemma ImportFromFound(s: string, k: nat, j: nat, m: string, rest: string)
    requires OccursAt(s, "import", k) && k + 6 <= j
    requires j <= |s| && s[j..] == "from '" + m + "'" + rest
    requires forall i :: k + 6 <= i < j ==> s[i] != '\n'
    requires forall i :: k + 6 <= i < j ==> !HasFromClause(s, i)
    requires m != [] && forall i :: 0 <= i < |m| ==> !IsQuote(m[i]) && m[i] != '\n'
    requires forall i :: 0 <= i < k && ImportFromAt(s, i).Some? ==> ImportFromAt(s, i).value.0 <= k
    ensures m in JavascriptNames(s)
  {
    ImportSpecifier(s, k, j, m, rest);
    AllReaches(s, 0, ImportFromAt, k);
  }

  /** `from 'm'` at `j` captures `m` when `m` holds no quote or newline. */
  lemma FromClauseSpecifier(s: string, j: nat, m: string, rest: string)
    requires j <= |s| && s[j..] == "from '" + m + "'" + rest
    requires m != [] && forall i :: 0 <= i < |m| ==> !IsQuote(m[i]) && m[i] != '\n'
    ensures FromClauseAt(s, j) == Some((j + 7 + |m|, m))
  {
    var t := s[j..];
    assert t[..4] == "from" && t[4] == ' ' && t[5] == '\'' && t[6 + |m|] == '\'';
    assert s[j..j + 4] == t[..4];
    assert s[j + 4] == t[4] && s[j + 5] == t[5];
    var w := RunEnd(s, j + 4, IsSpace);
    assert w == j + 5;
    var c := j + 6 + |m|;
    assert s[c] == t[6 + |m|];
    forall i | j + 6 <= i < c ensures s[i] == m[i - (j + 6)] {
      assert s[i] == t[i - j];
    }
    assert s[j + 6..c] == m;
    QuotedHit(s, j + 5, c, QuoteClose);
  }

  /**
    "import" at `k`, then no newline and no "from" clause up to `from 'm'` at `j`: `m` is
    captured, when it holds no quote or newline.
  */
  lemma ImportSpecifier(s: string, k: nat, j: nat, m: string, rest: string)
    requires OccursAt(s, "import", k) && k + 6 <= j
    requires j <= |s| && s[j..] == "from '" + m + "'" + rest
    requires forall i :: k + 6 <= i < j ==> s[i] != '\n'
    requires forall i :: k + 6 <= i < j ==> !HasFromClause(s, i)
    requires m != [] && forall i :: 0 <= i < |m| ==> !IsQuote(m[i]) && m[i] != '\n'
    ensures ImportFromAt(s, k) == Some((j + 7 + |m|, m))
  {
    FromClauseSpecifier(s, j, m, rest);
    ImportStopsAt(s, k, j);
  }

  /** The lazy `.*?` stops at the first "from" clause on the line, when there is one. */
  lemma ImportStopsAt(s: string, k: nat, j: nat)
    requires OccursAt(s, "import", k) && k + 6 <= j
    requires HasFromClause(s, j)
    requires forall i :: k + 6 <= i < j ==> s[i] != '\n'
    requires forall i :: k + 6 <= i < j ==> !HasFromClause(s, i)
    ensures ImportFromAt(s, k) == FromClauseAt(s, j)
  {
    OnTheLine(s, k + 6, j);
    var r := FromAfterImport(s, k);
    assert r.Some?;
    SameFirst(s, k + 6, r.value, j, HasFromClause);
    ImportFromAfter(s, k, j);
  }

  /** An `import ... from` match captures what the "from" clause that its lazy scan reaches captures. */
  lemma ImportFromAfter(s: string, k: nat, j: nat)
    requires FromAfterImport(s, k) == Some(j)
    ensures ImportFromAt(s, k) == FromClauseAt(s, j)
  {
  }

  /** A position reached from `i` without crossing a newline lies on the line of `i`. */
  lemma OnTheLine(s: string, i: nat, j: nat)
    requires i <= j <= |s| && forall k :: i <= k < j ==> s[k] != '\n'
    ensures j <= LineEnd(s, i)
  {
  }

  // ---------------------------------------------------------------------------
  // The set conversion and the parsers
  // ---------------------------------------------------------------------------

  predicate Distinct<T(==)>(s: seq<T>) {
    forall i, j :: 0 <= i < j < |s| ==> s[i] != s[j]
  }

  /** `list(set(xs))`: each element of `xs` exactly once. */
  method Dedupe(xs: seq<string>) returns (r: seq<string>)
    ensures Distinct(r)
    ensures forall x :: x in r <==> x in xs
  {
    r := [];
    var seen: set<string> := {};
    var i := 0;
    while i < |xs|
      invariant 0 <= i <= |xs|
      invariant Distinct(r)
      invariant forall x :: x in r <==> x in xs[..i]
      invariant forall x :: x in seen <==> x in r
    {
      if xs[i] !in seen {
        r := r + [xs[i]];
        seen := seen + {xs[i]};
      }
      assert xs[..i + 1] == xs[..i] + [xs[i]];
      i := i + 1;
    }
    assert xs[..i] == xs;
  }

  /** `parse_python_imports`. */
  method ParsePythonImports(content: string) returns (r: seq<string>)
    ensures Distinct(r)
    ensures forall x :: x in r <==> x in PythonNames(content)
  {
    var imports := All(content, 0, ImportStatement);
    imports := imports + All(content, 0, FromStatement);
    r := Dedupe(imports);
  }

  /** `parse_javascript_imports`. */
  method ParseJavascriptImports(content: string) returns (r: seq<string>)
    ensures Distinct(r)
    ensures forall x :: x in r <==> x in JavascriptNames(content)
  {
    var imports := All(content, 0, ImportFromAt);
    imports := imports + All(content, 0, RequireAt);
    r := Dedupe(imports);
  }

  // ---------------------------------------------------------------------------
  // Placeholder queries
  // ---------------------------------------------------------------------------

  /** A directory tree node as `get_repo_structure` describes it. */
  datatype Tree = Tree(path: string, kind: string, children: seq<Tree>)

  /** `get_repo_structure`: the given path as a directory with no children, whatever the repository. */
  function RepoStructure(owner: string, repo: string, path: string): (t: Tree)
    ensures t.path == path && t.kind == "directory" && t.children == []
  {
    Tree(path, "directory", [])
  }

  /** The file names `find_entry_points` looks for, not yet searched. */
  const EntryPatterns: seq<string> := [
    "main.py", "app.py", "__main__.py",
    "index.js", "server.js", "app.js",
    "Main.java", "main.go", "cmd/main.go"
  ]

  /** `find_entry_points`: no entry point is reported. */
  function EntryPoints(owner: string, repo: string): (r: seq<string>)
    ensures r == []
  {
    []
  }

  const Languages: seq<string> := ["python", "javascript", "java", "go"]

  /** `extract_dependencies`: one empty list per language. */
  function Dependencies(owner: string, repo: string): (d: Dict<string, seq<string>>)
    ensures Keys(d) == Languages
    ensures forall i :: 0 <= i < |d| ==> d[i].1 == []
  {
    seq(|Languages|, i requires 0 <= i < |Languages| => (Languages[i], []))
  }

  /** `search_symbols`: no symbol is reported. */
  function Symbols(owner: string, repo: string, query: string): (r: seq<string>)
    ensures r == []
  {
    []
  }
}
