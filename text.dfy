/**
  String helpers standing in for the Python string methods and regular-expression
  character classes the core uses. Characters are compared as code points; `lower()`,
  `\w` and `\s` are modelled on ASCII (see README).
*/
module Text {

  /** Python's `\w` restricted to ASCII: letters, digits and underscore. */
  predicate IsWordChar(c: char) {
    ('a' <= c <= 'z') || ('A' <= c <= 'Z') || ('0' <= c <= '9') || c == '_'
  }

  /** The character class `[\w.-]`. */
  predicate IsNameChar(c: char) {
    IsWordChar(c) || c == '.' || c == '-'
  }

  /** Python's `\s` and the separators of `str.split()` / `str.strip()`, restricted to ASCII. */
  predicate IsSpace(c: char) {
    c == ' ' || c == '\t' || c == '\n' || c == '\r' || c == '\U{B}' || c == '\U{C}'
    || ('\U{1C}' <= c <= '\U{1F}')
  }

  predicate IsAsciiLetter(c: char) {
    ('a' <= c <= 'z') || ('A' <= c <= 'Z')
  }

  function LowerChar(c: char): char {
    if 'A' <= c <= 'Z' then (c as int + 32) as char else c
  }

  /** `str.lower()` on ASCII letters. */
  function Lower(s: string): (r: string)
    ensures |r| == |s|
    ensures forall i :: 0 <= i < |s| ==> r[i] == LowerChar(s[i])
  {
    seq(|s|, i requires 0 <= i < |s| => LowerChar(s[i]))
  }

  predicate StartsWith(s: string, prefix: string) {
    |prefix| <= |s| && s[..|prefix|] == prefix
  }

  /** `sub` occurs in `s` starting at index `i`. */
  predicate OccursAt(s: string, sub: string, i: nat) {
    i + |sub| <= |s| && s[i..i + |sub|] == sub
  }

  /** `sub in s` for strings. */
  predicate Contains(s: string, sub: string) {
    exists i :: 0 <= i <= |s| && OccursAt(s, sub, i)
  }

  /** Every character of a contained string occurs in the containing one. */
  lemma ContainsChars(s: string, sub: string, c: char)
    requires Contains(s, sub) && c in sub
    ensures c in s
  {
    var i :| 0 <= i <= |s| && OccursAt(s, sub, i);
    var j :| 0 <= j < |sub| && sub[j] == c;
    assert s[i + j] == s[i..i + |sub|][j];
  }

  /** `any(kw in s for kw in kws)`. */
  predicate ContainsAny(s: string, kws: seq<string>) {
    exists k :: 0 <= k < |kws| && Contains(s, kws[k])
  }

  /** The index of the first character at or after `i` that is not whitespace. */
  function SkipSpaces(s: string, i: nat): (j: nat)
    requires i <= |s|
    ensures i <= j <= |s|
    ensures forall k :: i <= k < j ==> IsSpace(s[k])
    ensures j == |s| || !IsSpace(s[j])
    decreases |s| - i
  {
    if i < |s| && IsSpace(s[i]) then SkipSpaces(s, i + 1) else i
  }

  /** The length of `s` once the whitespace before index `n` is dropped from its end. */
  function BackSpaces(s: string, n: nat): (j: nat)
    requires n <= |s|
    ensures j <= n
    ensures forall k :: j <= k < n ==> IsSpace(s[k])
    ensures j == 0 || !IsSpace(s[j - 1])
  {
    if n > 0 && IsSpace(s[n - 1]) then BackSpaces(s, n - 1) else n
  }

  /** `str.strip()`: the text between the leading and the trailing whitespace. */
  function Strip(s: string): (r: string)
    ensures r == [] || (!IsSpace(r[0]) && !IsSpace(r[|r| - 1]))
  {
    var b := BackSpaces(s, |s|);
    var a := if b == 0 then 0 else SkipSpaces(s, 0);
    assert b > 0 ==> a < b;
    s[a..b]
  }

  /** Text with no whitespace at either end is its own `strip()`. */
  lemma StripTrimmed(s: string)
    requires s == [] || (!IsSpace(s[0]) && !IsSpace(s[|s| - 1]))
    ensures Strip(s) == s
  {
    if s != [] {
      assert BackSpaces(s, |s|) == |s|;
      assert SkipSpaces(s, 0) == 0;
    }
  }

  /** `str.rstrip(chars)`: drop trailing characters drawn from `cs`. */
  function RStripChars(s: string, cs: set<char>): (r: string)
    ensures |r| <= |s| && r == s[..|r|]
    ensures r == [] || r[|r| - 1] !in cs
  {
    if s != [] && s[|s| - 1] in cs then RStripChars(s[..|s| - 1], cs) else s
  }

  /** `str.split(sep)` for a one-character separator: never empty, no piece holds `sep`. */
  function Split(s: string, sep: char): (r: seq<string>)
    ensures |r| >= 1
    ensures forall k :: 0 <= k < |r| ==> sep !in r[k]
  {
    if s == [] then [""]
    else
      var rest := Split(s[1..], sep);
      if s[0] == sep then [""] + rest else [[s[0]] + rest[0]] + rest[1..]
  }

  lemma {:induction false} SplitNoSep(s: string, sep: char)
    requires sep !in s
    ensures Split(s, sep) == [s]
  {
    if s != [] {
      SplitNoSep(s[1..], sep);
      assert [s[0]] + s[1..] == s;
    }
  }

  lemma {:induction false} SplitAround(a: string, sep: char, b: string)
    ensures Split(a + [sep] + b, sep) == Split(a, sep) + Split(b, sep)
  {
    if a == [] {
      assert [sep] + b == a + [sep] + b;
      assert (a + [sep] + b)[1..] == b;
    } else {
      assert (a + [sep] + b)[1..] == a[1..] + [sep] + b;
      SplitAround(a[1..], sep, b);
    }
  }

  /** The first piece of `split(sep)` is the text before the first `sep`. */
  lemma {:induction false} SplitFirst(s: string, sep: char)
    ensures |Split(s, sep)[0]| <= |s| && Split(s, sep)[0] == s[..|Split(s, sep)[0]|]
    ensures |Split(s, sep)[0]| == |s| || s[|Split(s, sep)[0]|] == sep
  {
    if s != [] && s[0] != sep {
      SplitFirst(s[1..], sep);
    }
  }

  /** `split(sep)` yields more than one piece exactly when `sep` occurs. */
  lemma {:induction false} SplitPieces(s: string, sep: char)
    ensures |Split(s, sep)| == 1 <==> sep !in s
  {
    if s != [] {
      SplitPieces(s[1..], sep);
      assert s == [s[0]] + s[1..];
    }
  }

  /** The end of the run of characters satisfying `p` that starts at `i` (a greedy `[...]*`). */
  function RunEnd(s: string, i: nat, p: char -> bool): (j: nat)
    requires i <= |s|
    ensures i <= j <= |s|
    ensures forall k :: i <= k < j ==> p(s[k])
    ensures j == |s| || !p(s[j])
    decreases |s| - i
  {
    if i < |s| && p(s[i]) then RunEnd(s, i + 1, p) else i
  }

  /** The run from `i` ends at `j` when every character before `j` satisfies `p` and the one at `j` does not. */
  lemma RunEndIs(s: string, i: nat, j: nat, p: char -> bool)
    requires i <= j <= |s| && (forall k :: i <= k < j ==> p(s[k])) && (j == |s| || !p(s[j]))
    ensures RunEnd(s, i, p) == j
    decreases j - i
  {
    if i < j {
      RunEndIs(s, i + 1, j, p);
    }
  }

  /** Length of the leading run of characters satisfying `p`. */
  function RunLength(s: string, p: char -> bool): (n: nat)
    ensures n <= |s|
    ensures forall k :: 0 <= k < n ==> p(s[k])
    ensures n == |s| || !p(s[n])
  {
    if s != [] && p(s[0]) then 1 + RunLength(s[1..], p) else 0
  }

  /** `str.split()` with no argument: the maximal runs of non-whitespace, in order. */
  function Words(s: string): (r: seq<string>)
    ensures forall k :: 0 <= k < |r| ==> r[k] != [] && forall j :: 0 <= j < |r[k]| ==> !IsSpace(r[k][j])
    decreases |s|
  {
    if s == [] then []
    else if IsSpace(s[0]) then Words(s[1..])
    else
      var n := RunLength(s, c => !IsSpace(c));
      [s[..n]] + Words(s[n..])
  }

  /** A run of characters all satisfying `p` followed by `s` starts with a run of that length. */
  lemma {:induction false} RunLengthAppend(w: string, s: string, p: char -> bool)
    requires forall k :: 0 <= k < |w| ==> p(w[k])
    requires s == [] || !p(s[0])
    ensures RunLength(w + s, p) == |w|
  {
    if w != [] {
      assert (w + s)[1..] == w[1..] + s;
      RunLengthAppend(w[1..], s, p);
    }
  }

  /** A word followed by whitespace (or nothing) is the first word `split()` finds. */
  lemma WordsAfter(w: string, s: string)
    requires w != [] && forall k :: 0 <= k < |w| ==> !IsSpace(w[k])
    requires s == [] || IsSpace(s[0])
    ensures Words(w + s) == [w] + Words(s)
  {
    RunLengthAppend(w, s, c => !IsSpace(c));
    assert (w + s)[..|w|] == w && (w + s)[|w|..] == s;
  }

  /** `" ".join` of whitespace-free words splits back into the same words. */
  lemma {:induction false} WordsJoin(ws: seq<string>)
    requires forall i :: 0 <= i < |ws| ==> ws[i] != [] && forall k :: 0 <= k < |ws[i]| ==> !IsSpace(ws[i][k])
    ensures Words(Join(ws, " ")) == ws
  {
    if |ws| == 1 {
      WordsAfter(ws[0], "");
      assert ws[0] + "" == ws[0];
    } else if |ws| > 1 {
      WordsJoinStep(ws);
      WordsJoin(ws[1..]);
      assert ws == [ws[0]] + ws[1..];
    }
  }

  /** Splitting a join of several words finds the first word, then splits the join of the rest. */
  lemma WordsJoinStep(ws: seq<string>)
    requires |ws| > 1 && ws[0] != [] && forall k :: 0 <= k < |ws[0]| ==> !IsSpace(ws[0][k])
    ensures Words(Join(ws, " ")) == [ws[0]] + Words(Join(ws[1..], " "))
  {
    var rest := Join(ws[1..], " ");
    JoinFirst(ws, " ");
    WordsAfter(ws[0], " " + rest);
    WordsSpace(rest);
  }

  /** A join of several parts is the first part, the separator, then the join of the rest. */
  lemma JoinFirst(parts: seq<string>, sep: string)
    requires |parts| > 1
    ensures Join(parts, sep) == parts[0] + (sep + Join(parts[1..], sep))
  {
    assert parts[0] + sep + Join(parts[1..], sep) == parts[0] + (sep + Join(parts[1..], sep));
  }

  /** A leading space does not change the words `split()` finds. */
  lemma WordsSpace(s: string)
    ensures Words(" " + s) == Words(s)
  {
    assert (" " + s)[1..] == s;
  }

  /** `" ".join(s.split())`: runs of whitespace collapsed to one space, both ends trimmed. */
  function Collapse(s: string): string {
    Join(Words(s), " ")
  }

  /** Collapsing whitespace a second time changes nothing. */
  lemma CollapseIdempotent(s: string)
    ensures Collapse(Collapse(s)) == Collapse(s)
  {
    WordsJoin(Words(s));
  }

  /** `sep.join(parts)`. */
  function Join(parts: seq<string>, sep: string): string {
    if parts == [] then ""
    else if |parts| == 1 then parts[0]
    else parts[0] + sep + Join(parts[1..], sep)
  }

  /** Python's `s[:n]`, including the meaning of a negative `n` (drop that many from the end). */
  function Prefix<T>(s: seq<T>, n: int): (r: seq<T>)
    ensures |r| <= |s| && r == s[..|r|]
    ensures n >= 0 ==> |r| == if n < |s| then n else |s|
    ensures n < 0 ==> |r| == if |s| + n > 0 then |s| + n else 0
  {
    if n >= 0 then (if n < |s| then s[..n] else s)
    else (if |s| + n > 0 then s[..|s| + n] else [])
  }

  function DigitChar(d: nat): char
    requires d < 10
  {
    "0123456789"[d]
  }

  /** Decimal rendering of a natural number, as `str(n)` or an f-string gives it. */
  function NatToString(n: nat): (r: string)
    ensures r != []
    ensures forall k :: 0 <= k < |r| ==> '0' <= r[k] <= '9'
  {
    if n < 10 then [DigitChar(n)] else NatToString(n / 10) + [DigitChar(n % 10)]
  }

  /** The last three decimal digits of `r`, with leading zeros. */
  function Pad3(r: nat): string
    requires r < 1000
  {
    [DigitChar(r / 100), DigitChar(r / 10 % 10), DigitChar(r % 10)]
  }

  /** The format spec `{n:,}`: decimal digits with a comma between groups of three. */
  function Grouped(n: nat): string {
    if n < 1000 then NatToString(n) else Grouped(n / 1000) + "," + Pad3(n % 1000)
  }

  /** `s` with every occurrence of `c` removed. */
  function Without(s: string, c: char): (r: string)
    ensures c !in r
  {
    if s == [] then [] else (if s[0] == c then [] else [s[0]]) + Without(s[1..], c)
  }

  lemma {:induction false} WithoutAppend(a: string, b: string, c: char)
    ensures Without(a + b, c) == Without(a, c) + Without(b, c)
  {
    if a == [] {
      assert a + b == b;
    } else {
      assert (a + b)[0] == a[0] && (a + b)[1..] == a[1..] + b;
      WithoutAppend(a[1..], b, c);
      var h := if a[0] == c then [] else [a[0]];
      assert Without(a + b, c) == h + (Without(a[1..], c) + Without(b, c));
      assert Without(a, c) == h + Without(a[1..], c);
    }
  }

  lemma {:induction false} WithoutAbsent(s: string, c: char)
    requires c !in s
    ensures Without(s, c) == s
  {
    if s != [] {
      WithoutAbsent(s[1..], c);
      assert s == [s[0]] + s[1..];
    }
  }

  /** The decimal digits of `n` are those of `n / 1000` followed by the last three. */
  lemma NatToStringThree(n: nat)
    requires n >= 1000
    ensures NatToString(n) == NatToString(n / 1000) + Pad3(n % 1000)
  {
    var q, r := n / 1000, n % 1000;
    var m1, m2 := n / 10, n / 100;
    ThreeDigits(n);
    assert NatToString(m2) == NatToString(q) + [DigitChar(r / 100)];
    assert NatToString(m1) == NatToString(m2) + [DigitChar(r / 10 % 10)];
    assert NatToString(n) == NatToString(m1) + [DigitChar(r % 10)];
  }

  /** Dividing by ten peels off the last three decimal digits one at a time. */
  lemma ThreeDigits(n: nat)
    ensures n % 10 == n % 1000 % 10
    ensures n / 10 % 10 == n % 1000 / 10 % 10 && n / 100 % 10 == n % 1000 / 100
    ensures n / 10 / 10 == n / 100 && n / 100 / 10 == n / 1000
  {
    LastDigit(n);
    TensDigit(n);
    HundredsDigit(n);
    TenTen(n);
    HundredTen(n);
  }

  lemma LastDigit(n: nat) ensures n % 10 == n % 1000 % 10 {}
  lemma TensDigit(n: nat) ensures n / 10 % 10 == n % 1000 / 10 % 10 {}
  lemma HundredsDigit(n: nat) ensures n / 100 % 10 == n % 1000 / 100 {}
  lemma TenTen(n: nat) ensures n / 10 / 10 == n / 100 {}
  lemma HundredTen(n: nat) ensures n / 100 / 10 == n / 1000 {}

  lemma Pad3NoComma(r: nat)
    requires r < 1000
    ensures ',' !in Pad3(r)
  {
    assert forall d :: 0 <= d < 10 ==> DigitChar(d) != ',';
  }

  /** Dropping the separators from `{n:,}` gives back `str(n)`. */
  lemma {:induction false} GroupedDigits(n: nat)
    ensures Without(Grouped(n), ',') == NatToString(n)
  {
    if n < 1000 {
      assert forall k :: 0 <= k < |NatToString(n)| ==> NatToString(n)[k] != ',';
      WithoutAbsent(NatToString(n), ',');
    } else {
      GroupedDigits(n / 1000);
      GroupedStep(n);
      NatToStringThree(n);
    }
  }

  /** Without its separators, `{n:,}` is the separator-free grouping of `n / 1000`, then the last three digits. */
  lemma GroupedStep(n: nat)
    requires n >= 1000
    ensures Without(Grouped(n), ',') == Without(Grouped(n / 1000), ',') + Pad3(n % 1000)
  {
    var q, r := n / 1000, n % 1000;
    var g := Grouped(q);
    assert Grouped(n) == g + "," + Pad3(r);
    WithoutAppend(g + ",", Pad3(r), ',');
    WithoutAppend(g, ",", ',');
    assert Without(",", ',') == [];
    Pad3NoComma(r);
    WithoutAbsent(Pad3(r), ',');
  }
}
