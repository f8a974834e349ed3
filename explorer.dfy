/**
  ProjectExplorer: reads a file or lists a directory of the local project that a chat
  message points at, refusing anything outside the project root.

  The file system is an oracle, `Disk`: `os.path.normpath`, the existence and type
  tests, reading a file, file sizes, listing a directory and `os.path.join`. Reading,
  sizing and listing can fail with the text of the exception they raise. Paths are
  read the way `pathlib` reads them on Windows, where the project lives: '/' and '\'
  both separate components.
*/
module Explorer {
  import opened Wrappers
  import opened Dicts
  import opened Text
  import opened Search
  import opened Sorting
  import opened MultiSwarm

  datatype ReadOutcome = Content(text: string) | ReadFailed(error: string)
  datatype ListOutcome = Entries(names: seq<string>) | ListFailed(error: string)
  datatype SizeOutcome = Bytes(count: nat) | SizeFailed(error: string)

  /** What the operating system answers about paths. */
  datatype Disk = Disk(
    norm: string -> string,
    present: string -> bool,
    isFile: string -> bool,
    isDir: string -> bool,
    read: string -> ReadOutcome,
    size: string -> SizeOutcome,
    list: string -> ListOutcome,
    join: (string, string) -> string)

  // ---------------------------------------------------------------------------
  // The safe-path check

  const AllowedRoots: seq<string> := ["D:/DevPulseAIv2", "d:/DevPulseAIv2", "D:\\DevPulseAIv2", "d:\\DevPulseAIv2"]

  /** `.replace("\\", "/")`. */
  function Slashes(s: string): (r: string)
    ensures |r| == |s|
    ensures forall i :: 0 <= i < |s| ==> r[i] == if s[i] == '\\' then '/' else s[i]
  {
    seq(|s|, i requires 0 <= i < |s| => if s[i] == '\\' then '/' else s[i])
  }

  /** `os.path.normpath(path).replace("\\", "/").lower()`. */
  function Normalized(norm: string -> string, path: string): string {
    Lower(Slashes(norm(path)))
  }

  /** `any(normalized.startswith(...) for root in roots)`. */
  predicate UnderSomeRoot(normalized: string, roots: seq<string>) {
    roots != [] && (StartsWith(normalized, Lower(Slashes(roots[0]))) || UnderSomeRoot(normalized, roots[1..]))
  }

  /**
    `_is_safe_path`. The four allowed roots all normalise to "d:/devpulseaiv2", so a path
    is safe exactly when its normal form starts with that string.
  */
  function IsSafePath(norm: string -> string, path: string): (safe: bool)
    ensures safe <==> StartsWith(Normalized(norm, path), Root)
  {
    RootNormal(AllowedRoots[0]);
    RootNormal(AllowedRoots[1]);
    RootNormal(AllowedRoots[2]);
    RootNormal(AllowedRoots[3]);
    SameRoot(Normalized(norm, path), AllowedRoots);
    UnderSomeRoot(Normalized(norm, path), AllowedRoots)
  }

  const Root := "d:/devpulseaiv2"

  lemma RootNormal(r: string)
    requires r in AllowedRoots
    ensures Lower(Slashes(r)) == Root
  {
    assert Lower(Slashes(r))[2] == '/';
    assert Lower(Slashes(r))[0] == 'd';
  }

  lemma {:induction false} SameRoot(n: string, roots: seq<string>)
    requires roots != [] && forall r :: r in roots ==> Lower(Slashes(r)) == Root
    ensures UnderSomeRoot(n, roots) <==> StartsWith(n, Root)
  {
    if |roots| > 1 {
      SameRoot(n, roots[1..]);
    }
  }

  /**
    The check is a plain string prefix, not a path-component test: a sibling directory
    whose name merely begins with the project's name passes too.
  */
  lemma SiblingPasses(norm: string -> string, path: string, rest: string)
    requires norm(path) == "D:/DevPulseAIv2x/" + rest
    ensures IsSafePath(norm, path)
  {
    var n := Normalized(norm, path);
    assert n[..|Root|] == Lower(Slashes("D:/DevPulseAIv2x/" + rest))[..|Root|];
    forall i | 0 <= i < |Root| ensures n[i] == Root[i] {
      assert norm(path)[i] == "D:/DevPulseAIv2"[i];
    }
  }

  // ---------------------------------------------------------------------------
  // Names of paths

  predicate IsSep(c: char) {
    c == '/' || c == '\\'
  }

  /** The path without a leading drive such as "D:". */
  function DropDrive(p: string): string {
    if |p| >= 2 && IsAsciiLetter(p[0]) && p[1] == ':' then p[2..] else p
  }

  /** The last component that is neither empty nor ".", or "" when there is none. */
  function LastName(parts: seq<string>): string {
    if parts == [] then ""
    else
      var last := parts[|parts| - 1];
      if last == "" || last == "." then LastName(parts[..|parts| - 1]) else last
  }

  /** `Path(p).name`. */
  function PathName(p: string): string {
    LastName(Split(Slashes(DropDrive(p)), '/'))
  }

  predicate DotAt(s: string, i: nat) {
    i < |s| && s[i] == '.'
  }

  /** `Path(...).suffix` of a name: from its last '.', unless that dot is first or last. */
  function Suffix(name: string): (r: string)
    ensures r == [] || (2 <= |r| < |name| && r == name[|name| - |r|..] && r[0] == '.' && '.' !in r[1..])
    ensures forall i :: 0 < i < |name| - 1 && name[i] == '.' && '.' !in name[i + 1..] ==> r == name[i..]
  {
    LastDots(name);
    match LastAt(name, 0, |name|, DotAt)
    case Some(i) =>
      if 0 < i < |name| - 1 then
        var t := name[i + 1..];
        assert forall k :: 0 <= k < |t| ==> t[k] == name[i + 1 + k] && !DotAt(name, i + 1 + k);
        assert name[i..][1..] == t;
        name[i..]
      else ""
    case None => ""
  }

  /** The last '.' of a name is the one after which no '.' follows. */
  lemma LastDots(name: string)
    ensures forall i :: 0 <= i < |name| && name[i] == '.' && '.' !in name[i + 1..] ==> LastAt(name, 0, |name|, DotAt) == Some(i)
  {
    forall i | 0 <= i < |name| && name[i] == '.' && '.' !in name[i + 1..]
      ensures LastAt(name, 0, |name|, DotAt) == Some(i)
    {
      forall k | i < k < |name| ensures !DotAt(name, k) {
        assert name[k] == name[i + 1..][k - i - 1];
      }
      assert DotAt(name, i);
    }
  }

  /** A name whose only '.' is its first character, such as ".gitignore", has no suffix. */
  lemma DotfileNoSuffix(name: string)
    requires name != [] && name[0] == '.' && '.' !in name[1..]
    ensures Suffix(name) == ""
  {
    forall k | 0 < k < |name| ensures !DotAt(name, k) {
      assert name[k] == name[1..][k - 1];
    }
  }

  // ---------------------------------------------------------------------------
  // Finding a path in a message

  /** The character class `[\w./\\-]`. */
  predicate IsPathChar(c: char) {
    IsWordChar(c) || c == '.' || IsSep(c) || c == '-'
  }

  /** The character class `[\w-]`. */
  predicate IsStemChar(c: char) {
    IsWordChar(c) || c == '-'
  }

  /** `t` starts with a drive: a letter, ':' and a separator. */
  predicate IsDrivePath(t: string) {
    |t| >= 3 && IsAsciiLetter(t[0]) && t[1] == ':' && IsSep(t[2])
  }

  /** `[A-Za-z]:[/\\][\w./\\-]+` at `i`: the end of the match. */
  function DrivePathEnd(s: string, i: nat): (r: Option<nat>)
    ensures r.None? <==> !(i + 4 <= |s| && IsDrivePath(s[i..i + 3]) && IsPathChar(s[i + 3]))
    ensures r.Some? ==> i + 3 < r.value <= |s| && IsDrivePath(s[i..r.value])
    ensures r.Some? ==> (forall j :: i + 3 <= j < r.value ==> IsPathChar(s[j])) && (r.value == |s| || !IsPathChar(s[r.value]))
  {
    if i + 3 <= |s| && IsAsciiLetter(s[i]) && s[i + 1] == ':' && IsSep(s[i + 2]) then
      var e := RunEnd(s, i + 3, IsPathChar);
      if e > i + 3 then Some(e) else None
    else None
  }

  /** A '.' followed by a word character. */
  predicate DotWordAt(s: string, d: nat) {
    d + 1 < |s| && s[d] == '.' && IsWordChar(s[d + 1])
  }

  /**
    Pattern 1, `([A-Za-z]:[/\\][\w./\\-]+\.\w+)`, at `i`. The run of path characters
    gives back characters until a '.' followed by a word character, with at least one
    path character before it; the extension is then the word run after the dot.
  */
  function FilePathAt(s: string, i: nat): (r: Option<(nat, string)>)
    ensures r.Some? ==> var (f, p) := r.value;
      && i < f <= |s| && p == s[i..f] && IsDrivePath(p)
      && (exists d :: i + 4 <= d && d + 1 < f && s[d] == '.' && AllWordChars(s[d + 1..f]))
      && (f == |s| || !IsWordChar(s[f]))
  {
    match DrivePathEnd(s, i)
    case None => None
    case Some(e) =>
      match LastAt(s, i + 4, e, DotWordAt)
      case None => None
      case Some(d) =>
        FilePathEnd(s, i, e, d);
        var f := RunEnd(s, d + 1, IsWordChar);
        Some((f, s[i..f]))
  }

  /** The end of pattern 1's match: the word run after the dot at `d`, in the drive path that ends at `e`. */
  lemma FilePathEnd(s: string, i: nat, e: nat, d: nat)
    requires DrivePathEnd(s, i) == Some(e) && i + 4 <= d < e && DotWordAt(s, d)
    ensures var f := RunEnd(s, d + 1, IsWordChar);
      && i < f <= |s| && IsDrivePath(s[i..f])
      && (exists d :: i + 4 <= d && d + 1 < f && s[d] == '.' && AllWordChars(s[d + 1..f]))
      && (f == |s| || !IsWordChar(s[f]))
  {
    var f := RunEnd(s, d + 1, IsWordChar);
    WordRun(s, d + 1, f);
    assert s[i..f][..3] == s[i..e][..3];
  }

  const Keywords: seq<string> := ["at", "in", "from", "present at"]

  /**
    `\s+(?:at|in|from|present at)\s+([A-Za-z]:[/\\][\w./\\-]+)` once the first spaces
    are skipped to `k`: the keywords are tried in order, each followed by spaces and a
    drive path. Gives the start and end of the drive path.
  */
  function KeywordThenPath(s: string, k: nat, kws: seq<string>): (r: Option<(nat, nat)>)
    requires k <= |s|
    ensures r.Some? ==> k <= r.value.0 < r.value.1 <= |s| && IsDrivePath(s[r.value.0..r.value.1])
  {
    if kws == [] then None
    else
      var kw := kws[0];
      if OccursAt(s, kw, k) then
        var a := k + |kw|;
        var m := SkipSpaces(s, a);
        match (if m > a then DrivePathEnd(s, m) else None)
        case Some(q) => Some((m, q))
        case None => KeywordThenPath(s, k, kws[1..])
      else KeywordThenPath(s, k, kws[1..])
  }

  /** `directory.rstrip("/\\")` followed by "/" and the file name. */
  function Joined(directory: string, filename: string): string {
    RStripChars(directory, {'/', '\\'}) + "/" + filename
  }

  predicate AllWordChars(t: string) {
    forall j :: 0 <= j < |t| ==> IsWordChar(t[j])
  }

  lemma WordRun(s: string, a: nat, b: nat)
    requires a <= b <= |s| && forall k :: a <= k < b ==> IsWordChar(s[k])
    ensures AllWordChars(s[a..b])
  {
    forall j | 0 <= j < b - a ensures IsWordChar(s[a..b][j]) {
      assert s[a..b][j] == s[a + j];
    }
  }

  /**
    Pattern 2, `([\w.-]+\.\w+)\s+(?:at|in|from|present at)\s+([A-Za-z]:[/\\][\w./\\-]+)`,
    at `i`. The file name must run up to the whitespace, so it is the whole run of
    `[\w.-]` characters, and its part after the last '.' must be word characters.
  */
  function NamedFileAt(s: string, i: nat): (r: Option<(nat, string)>)
    ensures r.Some? ==> i < r.value.0 <= |s|
    ensures r.Some? ==> exists e, m ::
      (&& i < e < m < r.value.0
       && (forall j :: i <= j < e ==> IsNameChar(s[j])) && IsSpace(s[e]) && '.' in s[i..e]
       && IsDrivePath(s[m..r.value.0]) && r.value.1 == Joined(s[m..r.value.0], s[i..e]))
  {
    if i > |s| then None
    else
      var e := RunEnd(s, i, IsNameChar);
      if e < |s| && IsSpace(s[e]) then
        match LastAt(s, i + 1, e, DotAt)
        case Some(d) =>
          if d + 1 < e && AllWordChars(s[d + 1..e]) then
            match KeywordThenPath(s, SkipSpaces(s, e), Keywords)
            case Some((m, q)) =>
              assert s[i..e][d - i] == '.';
              Some((q, Joined(s[m..q], s[i..e])))
            case None => None
          else None
        case None => None
      else None
  }

  /** `\b` at `i`: a word character on exactly one side. */
  predicate Boundary(s: string, i: nat)
    requires i <= |s|
  {
    (i > 0 && IsWordChar(s[i - 1])) != (i < |s| && IsWordChar(s[i]))
  }

  const BareExtensions: seq<string> := ["md", "py", "txt", "json", "yaml", "yml", "toml", "js", "ts"]

  /** `w` occurs at `k` ignoring ASCII case. */
  predicate OccursFolded(s: string, w: string, k: nat) {
    k + |w| <= |s| && Lower(s[k..k + |w|]) == w
  }

  /** The alternatives of `(?:md|py|...|ts)\b` tried in order at `k`: the end of the first that fits. */
  function ExtensionEnd(s: string, k: nat, exts: seq<string>): (r: Option<nat>)
    ensures r.Some? ==> k <= r.value <= |s| && Lower(s[k..r.value]) in exts && Boundary(s, r.value)
  {
    if exts == [] then None
    else if OccursFolded(s, exts[0], k) && Boundary(s, k + |exts[0]|) then Some(k + |exts[0]|)
    else ExtensionEnd(s, k, exts[1..])
  }

  /** Pattern 3, `\b([\w-]+\.(?:md|py|txt|json|yaml|yml|toml|js|ts))\b` ignoring case, at `i`. */
  function BareFileAt(s: string, i: nat): Option<(nat, string)> {
    if i > |s| || !Boundary(s, i) then None
    else
      var e := RunEnd(s, i, IsStemChar);
      if i < e < |s| && s[e] == '.' then
        match ExtensionEnd(s, e + 1, BareExtensions)
        case Some(f) => Some((f, s[i..f]))
        case None => None
      else None
  }

  /** A pattern-3 match is a stem, a '.' and a listed extension in any case, with a word boundary at each end. */
  lemma BareFileAtShape(s: string, i: nat)
    requires BareFileAt(s, i).Some?
    ensures var (f, name) := BareFileAt(s, i).value;
      && i < f <= |s| && name == s[i..f] && Boundary(s, i) && Boundary(s, f)
      && exists e :: i < e < f && s[e] == '.' && (forall j :: i <= j < e ==> IsStemChar(s[j]))
                     && Lower(s[e + 1..f]) in BareExtensions
  {
    var e := RunEnd(s, i, IsStemChar);
    assert s[e] == '.';
  }

  const ProjectPrefix := "D:/DevPulseAIv2/"

  /** `_extract_file_path`: the three patterns in order, or "". */
  function ExtractFilePath(message: string): (path: string)
    ensures path != "" ==> IsDrivePath(path)
    ensures forall i: nat :: LeftmostAt(message, i, FilePathAt) ==> path == FilePathAt(message, i).value.1
    ensures NoMatch(message, FilePathAt) ==>
      forall i: nat :: LeftmostAt(message, i, NamedFileAt) ==> path == NamedFileAt(message, i).value.1
    ensures NoMatch(message, FilePathAt) && NoMatch(message, NamedFileAt) ==>
      && (forall i: nat :: LeftmostAt(message, i, BareFileAt) ==> path == ProjectPrefix + BareFileAt(message, i).value.1)
      && (NoMatch(message, BareFileAt) ==> path == "")
  {
    LeftmostIsFirst(message, FilePathAt);
    LeftmostIsFirst(message, NamedFileAt);
    LeftmostIsFirst(message, BareFileAt);
    match First(message, 0, FilePathAt)
    case Some((i, (_, p))) => FilePathAtIsDrivePath(message, i); p
    case None =>
      match First(message, 0, NamedFileAt)
      case Some((i, (_, p))) => NamedFileAtIsDrivePath(message, i); p
      case None =>
        match First(message, 0, BareFileAt)
        case Some((_, (_, name))) => PrefixedIsDrivePath(name); ProjectPrefix + name
        case None => ""
  }

  /** `([A-Za-z]:[/\\][\w./\\-]+)/?` at `i`; the optional '/' is already taken by the run. */
  function DirPathAt(s: string, i: nat): (r: Option<(nat, string)>)
    ensures r.None? <==> DrivePathEnd(s, i).None?
    ensures r.Some? ==> r.value.0 == DrivePathEnd(s, i).value && r.value.1 == s[i..r.value.0]
  {
    match DrivePathEnd(s, i)
    case Some(e) => Some((e, s[i..e]))
    case None => None
  }

  /** `_extract_directory_path`: the first drive path, if its last component has no '.'. */
  function ExtractDirectoryPath(message: string): (path: string)
    ensures path != "" ==> IsDrivePath(path) && '.' !in PathName(path)
    ensures forall i: nat :: LeftmostAt(message, i, DirPathAt) ==>
      path == if '.' in PathName(DirPathAt(message, i).value.1) then "" else DirPathAt(message, i).value.1
    ensures NoMatch(message, DirPathAt) ==> path == ""
  {
    LeftmostIsFirst(message, DirPathAt);
    match First(message, 0, DirPathAt)
    case Some((_, (_, path))) => if '.' !in PathName(path) then path else ""
    case None => ""
  }

  /** No drive path, so no file or directory path, starts where no ':' follows. */
  lemma NoDriveAt(s: string, k: nat)
    requires k + 1 < |s| ==> s[k + 1] != ':'
    ensures DrivePathEnd(s, k).None? && FilePathAt(s, k).None? && DirPathAt(s, k).None?
  {
  }

  /** A path with a drive and an extension is taken as it is. */
  lemma ExplicitFileExample()
    ensures ExtractFilePath("see D:/a.py") == "D:/a.py"
  {
    ExplicitFileFirst();
    ExplicitFileMatch();
  }

  lemma ExplicitFileFirst()
    ensures LeftmostAt("see D:/a.py", 4, FilePathAt)
  {
    var s := "see D:/a.py";
    forall k | 0 <= k < 4 ensures FilePathAt(s, k).None? {
      NoDriveAt(s, k);
    }
    ExplicitFileMatch();
  }

  lemma ExplicitFileMatch()
    ensures FilePathAt("see D:/a.py", 4) == Some((11, "D:/a.py"))
  {
    var s := "see D:/a.py";
    RunEndIs(s, 7, 11, IsPathChar);
    LastAtIs(s, 8, 11, DotWordAt, 8);
    RunEndIs(s, 9, 11, IsWordChar);
    assert s[4..11] == "D:/a.py";
  }

  /** A file named "at" a directory is joined to it, the directory losing its trailing '/'. */
  lemma NamedAtExample()
    ensures ExtractFilePath("a.md at D:/x/") == "D:/x/a.md"
  {
    NamedAtNoExplicit();
    NamedAtMatch();
  }

  lemma NamedAtNoExplicit()
    ensures NoMatch("a.md at D:/x/", FilePathAt)
  {
    var s := "a.md at D:/x/";
    forall k | 0 <= k <= |s| ensures FilePathAt(s, k).None? {
      if k == 8 {
        RunEndIs(s, 11, 13, IsPathChar);
      } else {
        NoDriveAt(s, k);
      }
    }
  }

  lemma NamedAtMatch()
    ensures NamedFileAt("a.md at D:/x/", 0) == Some((13, "D:/x/a.md"))
  {
    NamedAtName();
    NamedAtKeyword();
    JoinedExample();
  }

  lemma NamedAtName()
    ensures var s := "a.md at D:/x/";
      && RunEnd(s, 0, IsNameChar) == 4 && LastAt(s, 1, 4, DotAt) == Some(1) && AllWordChars(s[2..4])
      && SkipSpaces(s, 4) == 5 && s[0..4] == "a.md" && s[8..13] == "D:/x/"
  {
    NameRunOfExample();
    SlicesOfExample();
  }

  lemma NameRunOfExample()
    ensures var s := "a.md at D:/x/";
      RunEnd(s, 0, IsNameChar) == 4 && LastAt(s, 1, 4, DotAt) == Some(1) && AllWordChars(s[2..4])
  {
    var s := "a.md at D:/x/";
    RunEndIs(s, 0, 4, IsNameChar);
    LastAtIs(s, 1, 4, DotAt, 1);
    assert AllWordChars(s[2..4]);
  }

  lemma SlicesOfExample()
    ensures var s := "a.md at D:/x/";
      SkipSpaces(s, 4) == 5 && s[0..4] == "a.md" && s[8..13] == "D:/x/"
  {
  }

  lemma JoinedExample()
    ensures Joined("D:/x/", "a.md") == "D:/x/a.md"
  {
    assert RStripChars("D:/x/", {'/', '\\'}) == "D:/x";
  }

  lemma NamedAtKeyword()
    ensures KeywordThenPath("a.md at D:/x/", 5, Keywords) == Some((8, 13))
  {
    var s := "a.md at D:/x/";
    assert OccursAt(s, "at", 5);
    assert SkipSpaces(s, 7) == 8;
    RunEndIs(s, 11, 13, IsPathChar);
    assert DrivePathEnd(s, 8) == Some(13);
  }

  /** "present at" is the last keyword tried. */
  lemma NamedPresentAtExample()
    ensures ExtractFilePath("a.md present at D:/x/") == "D:/x/a.md"
  {
    NamedPresentAtNoExplicit();
    NamedPresentAtMatch();
  }

  lemma NamedPresentAtNoExplicit()
    ensures NoMatch("a.md present at D:/x/", FilePathAt)
  {
    var s := "a.md present at D:/x/";
    forall k | 0 <= k <= |s| ensures FilePathAt(s, k).None? {
      if k == 16 {
        RunEndIs(s, 19, 21, IsPathChar);
      } else {
        NoDriveAt(s, k);
      }
    }
  }

  lemma NamedPresentAtMatch()
    ensures NamedFileAt("a.md present at D:/x/", 0) == Some((21, "D:/x/a.md"))
  {
    NamedPresentAtName();
    NamedPresentAtKeyword();
    JoinedExample();
  }

  lemma NamedPresentAtName()
    ensures var s := "a.md present at D:/x/";
      && RunEnd(s, 0, IsNameChar) == 4 && LastAt(s, 1, 4, DotAt) == Some(1) && AllWordChars(s[2..4])
      && SkipSpaces(s, 4) == 5 && s[0..4] == "a.md" && s[16..21] == "D:/x/"
  {
    var s := "a.md present at D:/x/";
    NamedPresentAtScan();
    assert s[0..4] == "a.md";
    assert s[16..21] == "D:/x/";
  }

  lemma NamedPresentAtScan()
    ensures var s := "a.md present at D:/x/";
      && RunEnd(s, 0, IsNameChar) == 4 && LastAt(s, 1, 4, DotAt) == Some(1) && AllWordChars(s[2..4])
  {
    var s := "a.md present at D:/x/";
    RunEndIs(s, 0, 4, IsNameChar);
    LastAtIs(s, 1, 4, DotAt, 1);
    assert AllWordChars(s[2..4]);
  }

  lemma NamedPresentAtKeyword()
    ensures KeywordThenPath("a.md present at D:/x/", 5, Keywords) == Some((16, 21))
  {
    ShortKeywordsMiss();
    PresentAtPath();
  }

  /** "at", "in" and "from" do not occur where "present at" does. */
  lemma ShortKeywordsMiss()
    ensures KeywordThenPath("a.md present at D:/x/", 5, Keywords)
         == KeywordThenPath("a.md present at D:/x/", 5, ["present at"])
  {
    var s := "a.md present at D:/x/";
    assert s[5..7][0] == 'p' && s[5..9][0] == 'p';
    assert Keywords[1..] == ["in", "from", "present at"];
    assert Keywords[1..][1..] == ["from", "present at"];
    assert Keywords[1..][1..][1..] == ["present at"];
  }

  /** "present at", then a space, then the drive path `D:/x/`. */
  lemma PresentAtPath()
    ensures KeywordThenPath("a.md present at D:/x/", 5, ["present at"]) == Some((16, 21))
  {
    var s := "a.md present at D:/x/";
    assert OccursAt(s, "present at", 5);
    assert SkipSpaces(s, 15) == 16;
    RunEndIs(s, 19, 21, IsPathChar);
    assert DrivePathEnd(s, 16) == Some(21);
  }

  /** A bare file name with a listed extension, in any case, is taken from the project root. */
  lemma BareFileExample()
    ensures ExtractFilePath("a.MD") == ProjectPrefix + "a.MD"
  {
    BareFileNoPath();
    BareFileMatch();
  }

  lemma BareFileNoPath()
    ensures NoMatch("a.MD", FilePathAt) && NoMatch("a.MD", NamedFileAt)
  {
    var s := "a.MD";
    forall k | 0 <= k <= |s| ensures FilePathAt(s, k).None? && NamedFileAt(s, k).None? {
      NoDriveAt(s, k);
      RunEndIs(s, k, |s|, IsNameChar);
    }
  }

  lemma BareFileMatch()
    ensures LeftmostAt("a.MD", 0, BareFileAt) && BareFileAt("a.MD", 0) == Some((4, "a.MD"))
  {
    var s := "a.MD";
    assert Boundary(s, 0) && Boundary(s, 4);
    RunEndIs(s, 0, 1, IsStemChar);
    assert OccursFolded(s, "md", 2);
    assert ExtensionEnd(s, 2, BareExtensions) == Some(4);
    assert s[0..4] == s;
  }

  /** A drive path without an extension is a directory, with its trailing '/'. */
  lemma DirectoryExample()
    ensures ExtractFilePath("D:/x/") == ""
    ensures ExtractDirectoryPath("D:/x/") == "D:/x/"
  {
    DirectoryNoFile();
    DirectoryMatch();
    DirectoryName();
  }

  lemma DirectoryNoFile()
    ensures ExtractFilePath("D:/x/") == ""
  {
    var s := "D:/x/";
    RunEndIs(s, 3, 5, IsPathChar);
    forall k | 0 <= k <= |s| ensures FilePathAt(s, k).None? && NamedFileAt(s, k).None? && BareFileAt(s, k).None? {
      if k > 0 {
        NoDriveAt(s, k);
      }
      RunEndIs(s, k, RunEnd(s, k, IsNameChar), IsNameChar);
    }
    ExtractFileEmptyIff(s);
  }

  lemma DirectoryMatch()
    ensures LeftmostAt("D:/x/", 0, DirPathAt) && DirPathAt("D:/x/", 0) == Some((5, "D:/x/"))
  {
    RunEndIs("D:/x/", 3, 5, IsPathChar);
    assert "D:/x/"[0..5] == "D:/x/";
  }

  lemma DirectoryName()
    ensures PathName("D:/x/") == "x"
  {
    assert DropDrive("D:/x/") == "/x/";
    assert Slashes("/x/") == "/x/";
    assert "" + ['/'] + "x/" == "/x/";
    SplitAround("", '/', "x/");
    assert "x" + ['/'] + "" == "x/";
    SplitAround("x", '/', "");
    SplitNoSep("x", '/');
    assert Split("/x/", '/') == ["", "x", ""];
  }

  /** Stripping trailing characters never removes one that is not stripped. */
  lemma {:induction false} RStripKeeps(s: string, cs: set<char>, k: nat)
    requires k < |s| && s[k] !in cs
    ensures |RStripChars(s, cs)| > k
  {
    if s[|s| - 1] in cs {
      RStripKeeps(s[..|s| - 1], cs, k);
    }
  }

  /** Every pattern's result is non-empty, so "" means that none of them matched anywhere. */
  lemma ExtractFileEmptyIff(message: string)
    ensures ExtractFilePath(message) == "" <==>
      forall k :: 0 <= k <= |message| ==> FilePathAt(message, k).None? && NamedFileAt(message, k).None? && BareFileAt(message, k).None?
  {
    var p1 := First(message, 0, FilePathAt);
    var p2 := First(message, 0, NamedFileAt);
    if p1.Some? {
      assert p1.value.1.1 == message[p1.value.0..p1.value.1.0];
      assert |p1.value.1.1| > 0;
    } else if p2.Some? {
      var k := p2.value.0;
      assert NamedFileAt(message, k) == Some(p2.value.1);
    }
  }

  /** The drive path a `NamedFileAt` match joins with the file name keeps its drive. */
  lemma JoinedIsDrivePath(directory: string, filename: string)
    requires IsDrivePath(directory)
    ensures IsDrivePath(Joined(directory, filename))
  {
    RStripKeeps(directory, {'/', '\\'}, 1);
    var d := RStripChars(directory, {'/', '\\'});
    assert d[..2] == directory[..2];
    var j := Joined(directory, filename);
    assert j[..2] == d[..2];
    if |d| == 2 {
      assert j[2] == '/';
    } else {
      assert j[2] == d[2] == directory[2];
    }
  }

  /** A pattern-1 match is a drive path. */
  lemma FilePathAtIsDrivePath(s: string, i: nat)
    requires FilePathAt(s, i).Some?
    ensures IsDrivePath(FilePathAt(s, i).value.1)
  {
    var e := DrivePathEnd(s, i).value;
    var f := FilePathAt(s, i).value.0;
    assert s[i..f][..3] == s[i..e][..3];
  }

  /** A pattern-2 match joins a drive path with the file name, so it is a drive path. */
  lemma NamedFileAtIsDrivePath(s: string, i: nat)
    requires NamedFileAt(s, i).Some?
    ensures IsDrivePath(NamedFileAt(s, i).value.1)
  {
    var e := RunEnd(s, i, IsNameChar);
    var (m, q) := KeywordThenPath(s, SkipSpaces(s, e), Keywords).value;
    JoinedIsDrivePath(s[m..q], s[i..e]);
  }

  lemma PrefixedIsDrivePath(name: string)
    ensures IsDrivePath(ProjectPrefix + name)
  {
    assert (ProjectPrefix + name)[..3] == "D:/";
  }

  // ---------------------------------------------------------------------------
  // Reading a file

  const SafeExtensions: set<string> := {
    ".py", ".js", ".ts", ".tsx", ".jsx", ".json", ".md", ".txt",
    ".yaml", ".yml", ".toml", ".cfg", ".ini", ".env", ".sql",
    ".html", ".css", ".sh", ".bat", ".ps1", ".gitignore",
    ".dockerfile", ".csv"
  }

  const OutsideFiles := "\U{26D4} Cannot read files outside the project directory for security reasons."
  const OutsideDirectories := "\U{26D4} Cannot access directories outside the project."

  function BinaryType(ext: string): string {
    "\U{26A0}\U{FE0F} Cannot read binary file type: `" + ext + "`"
  }

  function TruncationNote(n: nat): string {
    "\n\n... (truncated, " + NatToString(n) + " total characters)"
  }

  /** The content shown: the first 5000 characters and a note with the full length when it is longer. */
  function Truncated(content: string): (r: string)
    ensures |content| <= 5000 ==> r == content
    ensures |content| > 5000 ==> |r| > 5000 && r[..5000] == content[..5000] && r[5000..] == TruncationNote(|content|)
  {
    if |content| > 5000 then content[..5000] + TruncationNote(|content|) else content
  }

  /** `s.lstrip(c)` for one character. */
  function LStripChar(s: string, c: char): string {
    if s != [] && s[0] == c then LStripChar(s[1..], c) else s
  }

  function FileSummary(name: string, path: string, size: nat, ext: string, content: string): string {
    "## \U{1F4C4} " + name + "\n\n"
    + "**Path:** `" + path + "`\n"
    + "**Size:** " + Grouped(size) + " bytes\n\n"
    + "```" + LStripChar(ext, '.') + "\n" + content + "\n```"
  }

  /** `Path(path).suffix.lower()`. */
  function Extension(path: string): string {
    Lower(Suffix(PathName(path)))
  }

  /** `_read_file`. */
  function FileResult(filePath: string, disk: Disk): (r: Fields)
    ensures Get(r, "status") == Some("success") ==>
      IsSafePath(disk.norm, disk.norm(filePath)) && disk.present(disk.norm(filePath))
    ensures Get(r, "status") == Some("success") && disk.isFile(disk.norm(filePath)) ==>
      && Extension(disk.norm(filePath)) in SafeExtensions
      && disk.read(disk.norm(filePath)).Content? && disk.size(disk.norm(filePath)).Bytes?
  {
    var path := disk.norm(filePath);
    if !IsSafePath(disk.norm, path) then ErrorResult(OutsideFiles)
    else if !disk.present(path) then ErrorResult("\U{1F4C1} File not found: `" + path + "`")
    else if !disk.isFile(path) then ListingResult(path, disk)
    else if Extension(path) !in SafeExtensions then
      ErrorResult(BinaryType(Extension(path)))
    else
      match disk.read(path)
      case ReadFailed(e) => ErrorResult("Error reading file: " + e)
      case Content(text) =>
        match disk.size(path)
        case SizeFailed(e) => ErrorResult("Error reading file: " + e)
        case Bytes(n) => SuccessResult(FileSummary(PathName(path), path, n, Extension(path), Truncated(text)))
  }

  /** `_read_file`, reassigning the content when it is cut. */
  method ReadFile(filePath: string, disk: Disk) returns (r: Fields)
    ensures r == FileResult(filePath, disk)
  {
    var path := disk.norm(filePath);
    if !IsSafePath(disk.norm, path) {
      return ErrorResult(OutsideFiles);
    }
    if !disk.present(path) {
      return ErrorResult("\U{1F4C1} File not found: `" + path + "`");
    }
    if !disk.isFile(path) {
      r := ListDirectory(path, disk);
      return;
    }
    var ext := Extension(path);
    if ext !in SafeExtensions {
      return ErrorResult(BinaryType(ext));
    }
    match disk.read(path) {
      case ReadFailed(e) =>
        r := ErrorResult("Error reading file: " + e);
      case Content(text) =>
        var content := text;
        var filename := PathName(path);
        if |content| > 5000 {
          content := content[..5000] + TruncationNote(|content|);
        }
        match disk.size(path) {
          case SizeFailed(e) =>
            r := ErrorResult("Error reading file: " + e);
          case Bytes(n) =>
            r := SuccessResult(FileSummary(filename, path, n, ext, content));
        }
    }
  }

  /** An unsafe path is refused before the disk is asked anything else. */
  lemma UnsafeRefused(filePath: string, disk: Disk)
    requires !StartsWith(Normalized(disk.norm, disk.norm(filePath)), Root)
    ensures FileResult(filePath, disk) == ErrorResult(OutsideFiles)
  {
  }

  /**
    A file called ".gitignore" has no suffix in `pathlib`'s sense, so it is refused as a
    binary type with an empty extension although ".gitignore" is listed as safe.
  */
  lemma GitignoreRefused(filePath: string, disk: Disk)
    requires IsSafePath(disk.norm, disk.norm(filePath))
    requires disk.present(disk.norm(filePath)) && disk.isFile(disk.norm(filePath))
    requires PathName(disk.norm(filePath)) == ".gitignore"
    ensures FileResult(filePath, disk) == ErrorResult(BinaryType(""))
  {
    GitignoreExtension(disk.norm(filePath));
  }

  lemma GitignoreExtension(path: string)
    requires PathName(path) == ".gitignore"
    ensures Extension(path) == ""
  {
    assert ".gitignore"[1..] == "gitignore";
    DotfileNoSuffix(".gitignore");
  }

  // ---------------------------------------------------------------------------
  // Listing a directory

  function FolderLine(entry: string): string {
    "\U{1F4C1} " + entry + "/"
  }

  function FileLine(entry: string, size: nat): string {
    "\U{1F4C4} " + entry + " (" + Grouped(size) + " bytes)"
  }

  /** The folder lines of `entries`, in their order. */
  function Folders(dir: string, entries: seq<string>, disk: Disk): seq<string> {
    if entries == [] then []
    else
      var last := entries[|entries| - 1];
      Folders(dir, entries[..|entries| - 1], disk)
      + (if disk.isDir(disk.join(dir, last)) then [FolderLine(last)] else [])
  }

  /** The file lines gathered so far, or the error of the first file whose size could not be read. */
  datatype Listed = Listed(lines: seq<string>) | SizeError(error: string)

  /** `entry` is a file of `dir` whose size cannot be read. */
  predicate SizeFails(dir: string, entry: string, disk: Disk) {
    !disk.isDir(disk.join(dir, entry)) && disk.size(disk.join(dir, entry)).SizeFailed?
  }

  /** The file lines of `entries`, in their order; the first size that fails ends the loop. */
  function Files(dir: string, entries: seq<string>, disk: Disk): Listed {
    if entries == [] then Listed([])
    else
      var last := entries[|entries| - 1];
      var full := disk.join(dir, last);
      match Files(dir, entries[..|entries| - 1], disk)
      case SizeError(e) => SizeError(e)
      case Listed(lines) =>
        if disk.isDir(full) then Listed(lines)
        else
          match disk.size(full)
          case SizeFailed(e) => SizeError(e)
          case Bytes(n) => Listed(lines + [FileLine(last, n)])
  }

  /** Every entry is listed as a folder or as a file, never both. */
  lemma {:induction false} EveryEntryOnce(dir: string, entries: seq<string>, disk: Disk)
    requires Files(dir, entries, disk).Listed?
    ensures |Folders(dir, entries, disk)| + |Files(dir, entries, disk).lines| == |entries|
  {
    if entries != [] {
      EveryEntryOnce(dir, entries[..|entries| - 1], disk);
    }
  }

  /**
    The listing fails exactly when some file's size cannot be read, and then with the
    error of the first such file.
  */
  lemma {:induction false} FilesFailIff(dir: string, entries: seq<string>, disk: Disk)
    ensures Files(dir, entries, disk).Listed? <==> forall k :: 0 <= k < |entries| ==> !SizeFails(dir, entries[k], disk)
    ensures Files(dir, entries, disk).SizeError? ==>
      exists k :: 0 <= k < |entries| && SizeFails(dir, entries[k], disk)
        && Files(dir, entries, disk).error == disk.size(disk.join(dir, entries[k])).error
        && forall j :: 0 <= j < k ==> !SizeFails(dir, entries[j], disk)
  {
    if entries != [] {
      var init := entries[..|entries| - 1];
      FilesFailIff(dir, init, disk);
      assert forall k :: 0 <= k < |init| ==> init[k] == entries[k];
      if Files(dir, init, disk).SizeError? {
        var k :| 0 <= k < |init| && SizeFails(dir, init[k], disk)
          && Files(dir, init, disk).error == disk.size(disk.join(dir, init[k])).error
          && forall j :: 0 <= j < k ==> !SizeFails(dir, init[j], disk);
        assert SizeFails(dir, entries[k], disk);
      } else if Files(dir, entries, disk).SizeError? {
        assert SizeFails(dir, entries[|entries| - 1], disk);
      }
    }
  }

  /** Once a size has failed, the later entries change nothing. */
  lemma {:induction false} FailureSticks(dir: string, entries: seq<string>, disk: Disk, i: nat)
    requires i <= |entries| && Files(dir, entries[..i], disk).SizeError?
    ensures Files(dir, entries, disk) == Files(dir, entries[..i], disk)
    decreases |entries|
  {
    if i < |entries| {
      var init := entries[..|entries| - 1];
      assert init[..i] == entries[..i];
      FailureSticks(dir, init, disk, i);
    } else {
      assert entries[..i] == entries;
    }
  }

  /** `"\n".join(f"- {x}" for x in xs)`. */
  function Bullets(xs: seq<string>): string {
    Join(seq(|xs|, i requires 0 <= i < |xs| => "- " + xs[i]), "\n")
  }

  /** The folders shown: the first twenty. */
  function ShownFolders(dirs: seq<string>): (r: seq<string>)
    ensures |r| == if |dirs| < 20 then |dirs| else 20
    ensures r == dirs[..|r|]
  {
    Prefix(dirs, 20)
  }

  /** The files shown: the first thirty. */
  function ShownFiles(files: seq<string>): (r: seq<string>)
    ensures |r| == if |files| < 30 then |files| else 30
    ensures r == files[..|r|]
  {
    Prefix(files, 30)
  }

  /** The closing note, present exactly when there are more than 50 entries. */
  function MoreNote(n: nat): (r: string)
    ensures r == "" <==> n <= 50
  {
    if n > 50 then "\n_... and " + NatToString(n - 50) + " more items_" else ""
  }

  function Heading(dir: string): string {
    "## \U{1F4C2} Directory: " + dir + "\n\n"
  }

  /** The listing after its heading. */
  function ListingBody(n: nat, dirs: seq<string>, files: seq<string>): string {
    (if dirs != [] then "**Folders:**\n" + Bullets(ShownFolders(dirs)) + "\n\n" else "")
    + (if files != [] then "**Files:**\n" + Bullets(ShownFiles(files)) + "\n" else "")
    + MoreNote(n)
  }

  /** `sorted(os.listdir(dir))`. */
  function SortedEntries(names: seq<string>): seq<string> {
    Sort(names, LexLess)
  }

  /** The entries are listed in name order, each one exactly once. */
  lemma EntriesSorted(names: seq<string>)
    ensures Sorted(SortedEntries(names), LexLess)
    ensures multiset(SortedEntries(names)) == multiset(names)
  {
    LexWeakOrder();
    SortSorted(names, LexLess);
    SortPermutation(names, LexLess);
  }

  /** `_list_directory`. */
  function ListingResult(dirPath: string, disk: Disk): (r: Fields)
    ensures Get(r, "status") == Some("success") ==>
      && IsSafePath(disk.norm, disk.norm(dirPath)) && disk.isDir(disk.norm(dirPath))
      && disk.list(disk.norm(dirPath)).Entries?
  {
    var dir := disk.norm(dirPath);
    if !IsSafePath(disk.norm, dir) then ErrorResult(OutsideDirectories)
    else if !disk.isDir(dir) then ErrorResult("Not a directory: `" + dir + "`")
    else
      match disk.list(dir)
      case ListFailed(e) => ErrorResult("Error listing directory: " + e)
      case Entries(names) =>
        var entries := SortedEntries(names);
        match Files(dir, entries, disk)
        case SizeError(e) => ErrorResult("Error listing directory: " + e)
        case Listed(files) => SuccessResult(Heading(dir) + ListingBody(|entries|, Folders(dir, entries, disk), files))
  }

  /**
    The loop over the sorted entries, appending to `dirs` or `files`; a size that cannot
    be read leaves the loop with its error.
  */
  method Classify(dir: string, entries: seq<string>, disk: Disk) returns (dirs: seq<string>, files: Listed)
    ensures files == Files(dir, entries, disk)
    ensures files.Listed? ==> dirs == Folders(dir, entries, disk)
  {
    dirs := [];
    var lines := [];
    for i := 0 to |entries|
      invariant dirs == Folders(dir, entries[..i], disk)
      invariant Files(dir, entries[..i], disk) == Listed(lines)
    {
      assert entries[..i + 1][..i] == entries[..i];
      var full := disk.join(dir, entries[i]);
      if disk.isDir(full) {
        dirs := dirs + [FolderLine(entries[i])];
      } else {
        match disk.size(full) {
          case SizeFailed(e) =>
            FailureSticks(dir, entries, disk, i + 1);
            return dirs, SizeError(e);
          case Bytes(n) =>
            lines := lines + [FileLine(entries[i], n)];
        }
      }
    }
    assert entries[..|entries|] == entries;
    files := Listed(lines);
  }

  /** `_list_directory`. */
  method ListDirectory(dirPath: string, disk: Disk) returns (r: Fields)
    ensures r == ListingResult(dirPath, disk)
  {
    var dir := disk.norm(dirPath);
    if !IsSafePath(disk.norm, dir) {
      return ErrorResult(OutsideDirectories);
    }
    if !disk.isDir(dir) {
      return ErrorResult("Not a directory: `" + dir + "`");
    }
    match disk.list(dir) {
      case ListFailed(e) =>
        r := ErrorResult("Error listing directory: " + e);
      case Entries(names) =>
        var entries := SortedEntries(names);
        var dirs, files := Classify(dir, entries, disk);
        match files {
          case SizeError(e) =>
            r := ErrorResult("Error listing directory: " + e);
          case Listed(lines) =>
            r := SuccessResult(Heading(dir) + ListingBody(|entries|, dirs, lines));
        }
    }
  }

  // ---------------------------------------------------------------------------
  // The project overview and routing

  /** `s.split("\n\n", 1)[-1]`: the text after the first blank line, or all of it. */
  function AfterFirstBreak(s: string): string {
    match First(s, 0, BreakAt)
    case Some((k, _)) => if k + 2 <= |s| then s[k + 2..] else s
    case None => s
  }

  function BreakAt(s: string, k: nat): Option<(nat, ())> {
    if OccursAt(s, "\n\n", k) then Some((k + 2, ())) else None
  }

  /** Text with no newline before its first blank line loses exactly that head. */
  lemma AfterHead(head: string, body: string)
    requires '\n' !in head
    ensures AfterFirstBreak(head + "\n\n" + body) == body
  {
    var s := head + "\n\n" + body;
    assert BreakAt(s, |head|).Some?;
    forall k | 0 <= k < |head| ensures BreakAt(s, k).None? {
      assert s[k] == head[k];
    }
    assert s[|head| + 2..] == body;
  }

  const ProjectRoot := "D:/DevPulseAIv2"
  const OverviewTitle := "## \U{1F3D7}\U{FE0F} Project Overview\n\n"

  /** `_project_overview`. */
  function OverviewResult(disk: Disk): (r: Fields)
    ensures Get(r, "status") == Get(ListingResult(ProjectRoot, disk), "status")
  {
    var result := ListingResult(ProjectRoot, disk);
    if Get(result, "status") == Some("success") then
      var summary := OverviewTitle + AfterFirstBreak(Get(result, "summary").GetOr(""));
      GetPut(result, "summary", summary, "status");
      Put(result, "summary", summary)
    else result
  }

  /** `_project_overview`. */
  method ProjectOverview(disk: Disk) returns (r: Fields)
    ensures r == OverviewResult(disk)
  {
    r := ListDirectory(ProjectRoot, disk);
    if Get(r, "status") == Some("success") {
      r := Put(r, "summary", OverviewTitle + AfterFirstBreak(Get(r, "summary").GetOr("")));
    }
  }

  /** A listing loses its heading, and only its heading, when cut at the first blank line. */
  lemma AfterHeading(dir: string, body: string)
    requires '\n' !in dir
    ensures AfterFirstBreak(Heading(dir) + body) == body
  {
    var head := "## \U{1F4C2} Directory: " + dir;
    assert Heading(dir) + body == head + "\n\n" + body;
    forall k | 0 <= k < |head| ensures head[k] != '\n' {
      if k < |head| - |dir| {
        assert head[k] == "## \U{1F4C2} Directory: "[k];
      } else {
        assert head[k] == dir[k - (|head| - |dir|)];
      }
    }
    AfterHead(head, body);
  }

  /** A directory that can be listed, with every file size readable, gives its heading and body. */
  lemma ListingSucceeds(dirPath: string, disk: Disk, names: seq<string>)
    requires IsSafePath(disk.norm, disk.norm(dirPath)) && disk.isDir(disk.norm(dirPath))
    requires disk.list(disk.norm(dirPath)) == Entries(names)
    requires forall k :: 0 <= k < |names| ==> !SizeFails(disk.norm(dirPath), names[k], disk)
    ensures var dir := disk.norm(dirPath);
      var entries := SortedEntries(names);
      && Files(dir, entries, disk).Listed?
      && ListingResult(dirPath, disk) == SuccessResult(Heading(dir) + ListingBody(|entries|, Folders(dir, entries, disk), Files(dir, entries, disk).lines))
  {
    var dir := disk.norm(dirPath);
    var entries := SortedEntries(names);
    EntriesSorted(names);
    forall k | 0 <= k < |entries| ensures !SizeFails(dir, entries[k], disk) {
      assert entries[k] in multiset(names);
    }
    FilesFailIff(dir, entries, disk);
  }

  /**
    A file in the listed directory whose size cannot be read turns the whole listing into
    an error, with the exception of the first such file in name order.
  */
  lemma ListingSizeFails(dirPath: string, disk: Disk, names: seq<string>, k: nat)
    requires IsSafePath(disk.norm, disk.norm(dirPath)) && disk.isDir(disk.norm(dirPath))
    requires disk.list(disk.norm(dirPath)) == Entries(names)
    requires k < |names| && SizeFails(disk.norm(dirPath), names[k], disk)
    ensures var dir := disk.norm(dirPath);
      && Files(dir, SortedEntries(names), disk).SizeError?
      && ListingResult(dirPath, disk) == ErrorResult("Error listing directory: " + Files(dir, SortedEntries(names), disk).error)
  {
    var dir := disk.norm(dirPath);
    var entries := SortedEntries(names);
    EntriesSorted(names);
    assert names[k] in multiset(entries);
    var j :| 0 <= j < |entries| && entries[j] == names[k];
    FilesFailIff(dir, entries, disk);
  }

  lemma ReplaceSummary(old_summary: string, new_summary: string)
    ensures Get(SuccessResult(old_summary), "status") == Some("success")
    ensures Get(SuccessResult(old_summary), "summary") == Some(old_summary)
    ensures Put(SuccessResult(old_summary), "summary", new_summary) == SuccessResult(new_summary)
  {
  }

  /** The overview is the root listing with its directory heading replaced by the overview title. */
  lemma OverviewReplacesHeading(disk: Disk, names: seq<string>)
    requires IsSafePath(disk.norm, disk.norm(ProjectRoot)) && disk.isDir(disk.norm(ProjectRoot))
    requires disk.list(disk.norm(ProjectRoot)) == Entries(names)
    requires '\n' !in disk.norm(ProjectRoot)
    requires forall k :: 0 <= k < |names| ==> !SizeFails(disk.norm(ProjectRoot), names[k], disk)
    ensures var dir := disk.norm(ProjectRoot);
      var entries := SortedEntries(names);
      && Files(dir, entries, disk).Listed?
      && OverviewResult(disk) == SuccessResult(OverviewTitle + ListingBody(|entries|, Folders(dir, entries, disk), Files(dir, entries, disk).lines))
  {
    var dir := disk.norm(ProjectRoot);
    var entries := SortedEntries(names);
    ListingSucceeds(ProjectRoot, disk, names);
    var body := ListingBody(|entries|, Folders(dir, entries, disk), Files(dir, entries, disk).lines);
    AfterHeading(dir, body);
    ReplaceSummary(Heading(dir) + body, OverviewTitle + body);
  }

  /** `execute`: a file path first, then a directory path, then the overview. */
  method Execute(task: Fields, disk: Disk) returns (r: Fields)
    ensures var message := Get(task, "user_message").GetOr("");
      && (ExtractFilePath(message) != "" ==> r == FileResult(ExtractFilePath(message), disk))
      && (ExtractFilePath(message) == "" && ExtractDirectoryPath(message) != "" ==> r == ListingResult(ExtractDirectoryPath(message), disk))
      && (ExtractFilePath(message) == "" && ExtractDirectoryPath(message) == "" ==> r == OverviewResult(disk))
  {
    var message := Get(task, "user_message").GetOr("");
    var filePath := ExtractFilePath(message);
    if filePath != "" {
      r := ReadFile(filePath, disk);
      return;
    }
    var dirPath := ExtractDirectoryPath(message);
    if dirPath != "" {
      r := ListDirectory(dirPath, disk);
      return;
    }
    r := ProjectOverview(disk);
  }
}
