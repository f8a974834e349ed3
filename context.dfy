/**
  The context ingestor: it reads a project's `requirements.txt` and `package.json` into
  dependency tables and tags the project's stack with them. Files are given as their
  contents: the lines of `requirements.txt`, and the two dependency objects of
  `package.json`.
*/
module Context {
  import opened Wrappers
  import opened Dicts
  import opened Text

  /** One of `==`, `>=`, `<=`, `>`, `<` starts at index `p` of `s`. */
  predicate OperatorAt(s: string, p: nat)
    requires p < |s|
  {
    s[p] == '<' || s[p] == '>' || (s[p] == '=' && p + 1 < |s| && s[p + 1] == '=')
  }

  /** The first index at or after `i` where an operator starts, `|s|` if there is none. */
  function FirstOperator(s: string, i: nat): (p: nat)
    requires i <= |s|
    ensures i <= p <= |s|
    ensures forall k :: i <= k < p ==> !OperatorAt(s, k)
    ensures p < |s| ==> OperatorAt(s, p)
    decreases |s| - i
  {
    if i == |s| || OperatorAt(s, i) then i else FirstOperator(s, i + 1)
  }

  /**
    One line of `requirements.txt`: nothing for a blank or comment line; otherwise the
    stripped text before the first operator mapped to the rest from that operator on,
    or, with no operator, the whole stripped line mapped to "latest" (`line.strip()` of
    the already stripped line is the line itself).
  */
  function ParseLine(raw: string): Option<(string, string)> {
    ParseStripped(Strip(raw))
  }

  /** `ParseLine` once the line is stripped. */
  function ParseStripped(line: string): Option<(string, string)> {
    if line == [] || line[0] == '#' then None
    else
      var p := FirstOperator(line, 0);
      if p < |line| then Some((Strip(line[..p]), Strip(line[p..])))
      else Some((line, "latest"))
  }

  /**
    What a line yields: nothing exactly for blank and comment lines; with an operator,
    a name free of operators and a version starting with the operator; without one, the
    stripped line and "latest".
  */
  lemma ParseLineCases(raw: string)
    ensures ParseLine(raw).None? <==> Strip(raw) == [] || Strip(raw)[0] == '#'
    ensures ParseLine(raw).Some? && FirstOperator(Strip(raw), 0) == |Strip(raw)| ==>
      ParseLine(raw) == Some((Strip(raw), "latest"))
    ensures ParseLine(raw).Some? && FirstOperator(Strip(raw), 0) < |Strip(raw)| ==>
      var name := ParseLine(raw).value.0;
      var version := ParseLine(raw).value.1;
      && (forall k :: 0 <= k < |name| ==> name[k] != '<' && name[k] != '>')
      && version != [] && version[0] in {'=', '<', '>'}
  {
    var line := Strip(raw);
    if line != [] && line[0] != '#' {
      var p := FirstOperator(line, 0);
      if p < |line| {
        var before := line[..p];
        var a := BackSpaces(before, |before|);
        var b := if a == 0 then 0 else SkipSpaces(before, 0);
        forall k | 0 <= k < |Strip(before)| ensures Strip(before)[k] != '<' && Strip(before)[k] != '>' {
          assert Strip(before)[k] == line[b + k];
          assert !OperatorAt(line, b + k);
        }
        var after := line[p..];
        assert after[0] in {'=', '<', '>'} && !IsSpace(after[0]);
        assert !IsSpace(after[|after| - 1]);
        StripTrimmed(after);
      }
    }
  }

  /** A package name with no whitespace or operator characters that does not start a comment. */
  predicate PlainName(name: string) {
    && name != [] && name[0] != '#'
    && forall k :: 0 <= k < |name| ==> !IsSpace(name[k]) && name[k] !in {'<', '>', '='}
  }

  /** A pin written `name`, operator, `version` reads back as that name and the operator and version. */
  lemma ParsePinned(name: string, op: string, version: string)
    requires PlainName(name)
    requires op in ["==", ">=", "<=", ">", "<"]
    requires forall k :: 0 <= k < |version| ==> !IsSpace(version[k])
    ensures ParseLine(name + op + version) == Some((name, op + version))
  {
    var line := name + op + version;
    PinTrimmed(op, version);
    assert line == name + (op + version);
    StripTrimmed(line);
    PinOperator(name, op, version);
    assert line[..|name|] == name;
    StripTrimmed(name);
    assert line[|name|..] == op + version;
    assert ParseStripped(line) == Some((name, op + version));
  }

  /** The operator and version of a pin carry no surrounding whitespace. */
  lemma PinTrimmed(op: string, version: string)
    requires op in ["==", ">=", "<=", ">", "<"]
    requires forall k :: 0 <= k < |version| ==> !IsSpace(version[k])
    ensures !IsSpace((op + version)[0]) && !IsSpace((op + version)[|op + version| - 1])
    ensures Strip(op + version) == op + version
  {
    var v := op + version;
    if version == [] {
      assert v[|v| - 1] == op[|op| - 1];
    } else {
      assert v[|v| - 1] == version[|version| - 1];
    }
    StripTrimmed(v);
  }

  /** The first operator of a pin is the one right after the name. */
  lemma PinOperator(name: string, op: string, version: string)
    requires PlainName(name)
    requires op in ["==", ">=", "<=", ">", "<"]
    ensures FirstOperator(name + op + version, 0) == |name|
  {
    var line := name + op + version;
    forall k | 0 <= k < |name| ensures !OperatorAt(line, k) {
      assert line[k] == name[k];
    }
    assert line[|name|] == op[0];
    assert |op| == 2 ==> line[|name| + 1] == op[1];
    FirstOperatorSkips(line, 0, |name|);
  }

  /** Scanning from `i` passes over indices without an operator. */
  lemma {:induction false} FirstOperatorSkips(s: string, i: nat, p: nat)
    requires i <= p < |s| && OperatorAt(s, p)
    requires forall k :: i <= k < p ==> !OperatorAt(s, k)
    ensures FirstOperator(s, i) == p
    decreases p - i
  {
    if i < p {
      FirstOperatorSkips(s, i + 1, p);
    }
  }

  /** What each line yields, in order. */
  function Entries(lines: seq<string>): (es: seq<Option<(string, string)>>)
    ensures |es| == |lines| && forall i :: 0 <= i < |lines| ==> es[i] == ParseLine(lines[i])
  {
    seq(|lines|, i requires 0 <= i < |lines| => ParseLine(lines[i]))
  }

  /** The table the entries fill, each overwriting an earlier one of the same name. */
  function Collect(es: seq<Option<(string, string)>>): (deps: Dict<string, string>)
    ensures UniqueKeys(deps)
  {
    if es == [] then []
    else
      var init := Collect(es[..|es| - 1]);
      match es[|es| - 1]
      case None => init
      case Some(entry) => PutKeepsUnique(init, entry.0, entry.1); Put(init, entry.0, entry.1)
  }

  /** The table read from the given lines. */
  function Requirements(lines: seq<string>): (deps: Dict<string, string>)
    ensures UniqueKeys(deps)
  {
    Collect(Entries(lines))
  }

  /** `_parse_requirements` over the lines the file yields. */
  method ParseRequirements(lines: seq<string>) returns (deps: Dict<string, string>)
    ensures deps == Requirements(lines)
  {
    var es := Entries(lines);
    deps := [];
    for i := 0 to |lines|
      invariant deps == Collect(es[..i])
    {
      assert es[..i + 1][..i] == es[..i];
      match ParseLine(lines[i]) {
        case None =>
        case Some(entry) =>
          deps := Put(deps, entry.0, entry.1);
      }
    }
    assert es[..|lines|] == es;
  }

  /** Entry `j` is for `name`. */
  predicate Declares(es: seq<Option<(string, string)>>, j: nat, name: string)
    requires j < |es|
  {
    es[j].Some? && es[j].value.0 == name
  }

  /** Entry `i` gives `name` the `version`, and no later entry is for `name`. */
  predicate Decides(es: seq<Option<(string, string)>>, i: nat, name: string, version: string)
    requires i < |es|
  {
    es[i] == Some((name, version)) && forall j :: i < j < |es| ==> !Declares(es, j, name)
  }

  /** An entry before the last decides in all the entries when it decides in the others and the last is not for the package. */
  lemma DecidesBeforeLast(es: seq<Option<(string, string)>>, i: nat, name: string, version: string)
    requires i < |es| - 1
    ensures Decides(es, i, name, version) <==>
      Decides(es[..|es| - 1], i, name, version) && !Declares(es, |es| - 1, name)
  {
    var init := es[..|es| - 1];
    forall j | i < j < |init| ensures Declares(init, j, name) == Declares(es, j, name) {
      assert init[j] == es[j];
    }
    assert init[i] == es[i];
  }

  /** The last entry decides the version of a package it is for; otherwise the others do. */
  lemma CollectLast(es: seq<Option<(string, string)>>, name: string)
    requires es != []
    ensures Get(Collect(es), name) ==
      if Declares(es, |es| - 1, name) then Some(es[|es| - 1].value.1)
      else Get(Collect(es[..|es| - 1]), name)
  {
    var init := Collect(es[..|es| - 1]);
    match es[|es| - 1] {
      case None =>
      case Some(entry) => GetPut(init, entry.0, entry.1, name);
    }
  }

  /** When the last entry is for the package, it is the one that decides. */
  lemma LastDeclares(es: seq<Option<(string, string)>>, name: string, version: string)
    requires es != [] && Declares(es, |es| - 1, name)
    ensures (exists i :: 0 <= i < |es| && Decides(es, i, name, version)) <==> es[|es| - 1].value.1 == version
  {
    var n := |es| - 1;
    if es[n].value.1 == version {
      assert Decides(es, n, name, version);
    } else {
      forall i | 0 <= i < |es| ensures !Decides(es, i, name, version) {
        if i < n {
          assert Declares(es, n, name);
        }
      }
    }
  }

  /** When the last entry is not for the package, the earlier entries decide. */
  lemma LastSilent(es: seq<Option<(string, string)>>, init: seq<Option<(string, string)>>, name: string, version: string)
    requires es != [] && init == es[..|es| - 1] && !Declares(es, |es| - 1, name)
    ensures (exists i :: 0 <= i < |es| && Decides(es, i, name, version)) <==>
      exists i :: 0 <= i < |init| && Decides(init, i, name, version)
  {
    if exists i :: 0 <= i < |init| && Decides(init, i, name, version) {
      var i :| 0 <= i < |init| && Decides(init, i, name, version);
      DecidesBeforeLast(es, i, name, version);
    }
    if exists i :: 0 <= i < |es| && Decides(es, i, name, version) {
      var i :| 0 <= i < |es| && Decides(es, i, name, version);
      DecidesBeforeLast(es, i, name, version);
    }
  }

  /**
    The last entry for a package decides its version: the table maps `name` to `version`
    exactly when some entry gives that pair and no later entry is for `name`.
  */
  lemma {:induction false} LastEntryWins(es: seq<Option<(string, string)>>, name: string, version: string)
    ensures Get(Collect(es), name) == Some(version) <==>
      exists i :: 0 <= i < |es| && Decides(es, i, name, version)
  {
    if es != [] {
      CollectLast(es, name);
      if Declares(es, |es| - 1, name) {
        LastDeclares(es, name, version);
      } else {
        LastEntryWins(es[..|es| - 1], name, version);
        LastSilent(es, es[..|es| - 1], name, version);
      }
    }
  }

  /**
    A later line overrides an earlier one: `requirements.txt` maps `name` to `version`
    exactly when some line yields that pair and no later line yields an entry for `name`.
  */
  lemma LastLineWins(lines: seq<string>, name: string, version: string)
    ensures Get(Requirements(lines), name) == Some(version) <==>
      exists i :: 0 <= i < |lines| && Decides(Entries(lines), i, name, version)
  {
    LastEntryWins(Entries(lines), name, version);
  }

  /** The two dependency objects of a parsed `package.json`, each possibly absent. */
  datatype PackageJson = PackageJson(dependencies: Option<Dict<string, string>>,
                                     devDependencies: Option<Dict<string, string>>)

  /**
    `_parse_package_json`: `dependencies` then `devDependencies` merged with `update`;
    a file that cannot be read or parsed (`None`) gives the empty table.
  */
  function PackageDependencies(data: Option<PackageJson>): Dict<string, string> {
    match data
    case None => []
    case Some(p) => Update(Update([], p.dependencies.GetOr([])), p.devDependencies.GetOr([]))
  }

  /**
    The merged table holds each name once; a development dependency wins over a runtime
    dependency of the same name, and every other name keeps its runtime version.
  */
  lemma DevDependenciesWin(p: PackageJson, name: string)
    requires UniqueKeys(p.dependencies.GetOr([])) && UniqueKeys(p.devDependencies.GetOr([]))
    ensures UniqueKeys(PackageDependencies(Some(p)))
    ensures Get(PackageDependencies(Some(p)), name) ==
      if name in Keys(p.devDependencies.GetOr([])) then Get(p.devDependencies.GetOr([]), name)
      else Get(p.dependencies.GetOr([]), name)
  {
    var deps := p.dependencies.GetOr([]);
    var dev := p.devDependencies.GetOr([]);
    GetUpdate([], deps, name);
    GetUpdate(Update([], deps), dev, name);
    UpdateKeepsUnique([], deps);
    UpdateKeepsUnique(Update([], deps), dev);
  }

  /** One entry of `context_items`. */
  datatype ContextItem = ContextItem(source: string, dependencies: Dict<string, string>, techTags: seq<string>)

  /**
    `ingest_directory`: the `requirements.txt` item, when that file exists (`Some` of its
    lines), then the `package.json` item, when that file exists (`Some` of its parse).
    Each item's tags are the language tags followed by the dependency names.
  */
  method IngestDirectory(requirements: Option<seq<string>>, packageJson: Option<Option<PackageJson>>)
    returns (items: seq<ContextItem>)
    ensures |items| == (if requirements.Some? then 1 else 0) + (if packageJson.Some? then 1 else 0)
    ensures requirements.Some? ==>
      && items[0].source == "requirements.txt"
      && items[0].dependencies == Requirements(requirements.value)
      && items[0].techTags == ["python"] + Keys(items[0].dependencies)
    ensures packageJson.Some? ==>
      && items[|items| - 1].source == "package.json"
      && items[|items| - 1].dependencies == PackageDependencies(packageJson.value)
      && items[|items| - 1].techTags == ["javascript", "node"] + Keys(items[|items| - 1].dependencies)
  {
    items := [];
    if requirements.Some? {
      var deps := ParseRequirements(requirements.value);
      items := items + [ContextItem("requirements.txt", deps, ["python"] + Keys(deps))];
    }
    if packageJson.Some? {
      var deps := PackageDependencies(packageJson.value);
      items := items + [ContextItem("package.json", deps, ["javascript", "node"] + Keys(deps))];
    }
  }

  /** The tags after "python" name every dependency of the requirements file exactly once. */
  lemma RequirementTagsDistinct(lines: seq<string>)
    ensures var tags := (["python"] + Keys(Requirements(lines)))[1..];
      forall i, j :: 0 <= i < j < |tags| ==> tags[i] != tags[j]
  {
    var deps := Requirements(lines);
    var tags := (["python"] + Keys(deps))[1..];
    assert tags == Keys(deps);
  }

  /** A line with no operator anywhere is a bare name, pinned to "latest". */
  lemma BareName(line: string)
    requires line != [] && line[0] != '#' && !IsSpace(line[0]) && !IsSpace(line[|line| - 1])
    requires forall k :: 0 <= k < |line| ==> !OperatorAt(line, k)
    ensures ParseLine(line) == Some((line, "latest"))
  {
    StripTrimmed(line);
  }

  /** `flask==2.0.1` pins flask to "==2.0.1" (the line written as its three parts). */
  lemma PinExample()
    ensures ParseLine("flask" + "==" + "2.0.1") == Some(("flask", "==" + "2.0.1"))
  {
    ParsePinned("flask", "==", "2.0.1");
  }

  /** `numpy` is pinned to "latest", and so is `pkg!=1`, since `!=` is not an operator here. */
  lemma BareExamples()
    ensures ParseLine("numpy") == Some(("numpy", "latest"))
    ensures ParseLine("pkg!=1") == Some(("pkg!=1", "latest"))
  {
    BareName("numpy");
    BareName("pkg!=1");
  }

  /** A comment line yields nothing. */
  lemma CommentExample()
    ensures ParseLine("# pinned for CI") == None
  {
    StripTrimmed("# pinned for CI");
  }
}
