/**
  RepoResearcher: finds a GitHub repository named in a chat message, asks the GitHub
  REST API about it and writes a Markdown analysis.

  The four HTTP requests, the README's base64 decoding and the writes to the signal
  store are one oracle, `fetch`, from owner and repository to what the requests gave
  back. The float percentage and its bar in the languages list are a parameter,
  `share`, from a language's byte count and the total to the text shown for it.
*/
module Researcher {
  import opened Wrappers
  import opened Dicts
  import opened Text
  import opened Search
  import opened Sorting
  import opened MultiSwarm

  // ---------------------------------------------------------------------------
  // Finding a repository in a message

  /**
    `([\w.-]+)/([\w.-]+)` tried at index `i`: the end of the match and the two groups.
    Both runs are greedy; giving back characters of the first run cannot help, since
    what follows a shorter run is a name character and not '/'.
  */
  function PairAt(s: string, i: nat): Option<(nat, (string, string))> {
    if i > |s| then None
    else
      var j := RunEnd(s, i, IsNameChar);
      if i < j < |s| && s[j] == '/' then
        var k := RunEnd(s, j + 1, IsNameChar);
        if j + 1 < k then Some((k, (s[i..j], s[j + 1..k]))) else None
      else None
  }

  const Host := "github.com/"

  /** `github\.com/([\w.-]+/[\w.-]+)` tried at index `i`. */
  function GithubAt(s: string, i: nat): Option<(nat, (string, string))> {
    if OccursAt(s, Host, i) then PairAt(s, i + |Host|) else None
  }

  /** The owner and repository `_extract_repo_url` finds: a `github.com/` match first, else any `x/y`. */
  function Captured(message: string): Option<(string, string)> {
    match First(message, 0, GithubAt)
    case Some((_, (_, p))) => Some(p)
    case None =>
      match First(message, 0, PairAt)
      case Some((_, (_, p))) => Some(p)
      case None => None
  }

  function Url(owner: string, repo: string): string {
    "https://github.com/" + owner + "/" + repo
  }

  /** `_extract_repo_url`: the repository's URL, or "" when the message names none. */
  function ExtractRepoUrl(message: string): (url: string)
    ensures url == "" <==> Captured(message).None?
    ensures url != "" ==> |url| > |"https://github.com/"| && url[..|"https://github.com/"|] == "https://github.com/"
  {
    match Captured(message)
    case Some((owner, repo)) => Url(owner, repo)
    case None => ""
  }

  /** What `PairAt` captures is two non-empty runs of name characters. */
  lemma PairAtNames(s: string, i: nat)
    requires PairAt(s, i).Some?
    ensures var (o, r) := PairAt(s, i).value.1;
      o != [] && r != [] && (forall k :: 0 <= k < |o| ==> IsNameChar(o[k])) && (forall k :: 0 <= k < |r| ==> IsNameChar(r[k]))
  {
    var j := RunEnd(s, i, IsNameChar);
    var k := RunEnd(s, j + 1, IsNameChar);
    var o, r := s[i..j], s[j + 1..k];
    assert forall t :: 0 <= t < |o| ==> o[t] == s[i + t];
    assert forall t :: 0 <= t < |r| ==> r[t] == s[j + 1 + t];
  }

  /** A captured pair is two non-empty runs of name characters found at some index. */
  lemma CapturedNames(message: string)
    requires Captured(message).Some?
    ensures var (o, r) := Captured(message).value;
      o != [] && r != [] && (forall k :: 0 <= k < |o| ==> IsNameChar(o[k])) && (forall k :: 0 <= k < |r| ==> IsNameChar(r[k]))
  {
    var g := First(message, 0, GithubAt);
    if g.Some? {
      var k := g.value.0;
      assert GithubAt(message, k) == PairAt(message, k + |Host|);
      assert Captured(message) == Some(PairAt(message, k + |Host|).value.1);
      PairAtNames(message, k + |Host|);
    } else {
      var k := First(message, 0, PairAt).value.0;
      assert Captured(message) == Some(PairAt(message, k).value.1);
      PairAtNames(message, k);
    }
  }

  /**
    Nothing is extracted exactly when no `x/y` token occurs anywhere: a `github.com/`
    match always contains one.
  */
  lemma ExtractEmptyIff(message: string)
    ensures ExtractRepoUrl(message) == "" <==> forall k :: 0 <= k <= |message| ==> PairAt(message, k).None?
  {
    CapturedNoneIff(message);
    if Captured(message).Some? {
      var (o, r) := Captured(message).value;
      assert Url(o, r)[0] == 'h';
    }
  }

  lemma CapturedNoneIff(message: string)
    ensures Captured(message).None? <==> forall k :: 0 <= k <= |message| ==> PairAt(message, k).None?
  {
    var g := First(message, 0, GithubAt);
    if g.Some? {
      var k := g.value.0;
      assert GithubAt(message, k) == PairAt(message, k + |Host|);
      assert Captured(message).Some?;
    } else {
      assert Captured(message).Some? <==> First(message, 0, PairAt).Some?;
    }
  }

  /** The leftmost `github.com/owner/repo` wins, even over an `x/y` token earlier in the message. */
  lemma GithubPreferred(message: string, i: nat, e: nat, owner: string, repo: string)
    requires i <= |message| && GithubAt(message, i) == Some((e, (owner, repo)))
    requires forall k :: 0 <= k < i ==> GithubAt(message, k).None?
    ensures ExtractRepoUrl(message) == Url(owner, repo)
  {
    var r := First(message, 0, GithubAt);
    assert r.Some?;
    assert r.value.0 == i;
  }

  // ---------------------------------------------------------------------------
  // Parsing a repository URL

  /** `_parse_repo_url`: the last two '/'-separated segments once trailing '/' are stripped. */
  function ParseRepoUrl(url: string): (r: Option<(string, string)>)
    ensures r.Some? ==> '/' !in r.value.0 && '/' !in r.value.1
  {
    var parts := Split(RStripChars(url, {'/'}), '/');
    if |parts| >= 2 then Some((parts[|parts| - 2], parts[|parts| - 1])) else None
  }

  /** Fewer than two segments, and so `(None, None)`, exactly when no '/' is left after stripping. */
  lemma ParseNoneIff(url: string)
    ensures ParseRepoUrl(url).None? <==> '/' !in RStripChars(url, {'/'})
  {
    SplitPieces(RStripChars(url, {'/'}), '/');
  }

  /** Any URL ending in `/owner/repo` parses to that owner and repository. */
  lemma {:induction false} ParseLastTwo(prefix: string, owner: string, repo: string)
    requires '/' !in owner && '/' !in repo && repo != []
    ensures ParseRepoUrl(prefix + "/" + owner + "/" + repo) == Some((owner, repo))
  {
    var url := prefix + "/" + owner + "/" + repo;
    assert url[|url| - 1] == repo[|repo| - 1];
    assert RStripChars(url, {'/'}) == url;
    assert url == (prefix + "/" + owner) + ['/'] + repo;
    SplitAround(prefix + "/" + owner, '/', repo);
    assert prefix + "/" + owner == prefix + ['/'] + owner;
    SplitAround(prefix, '/', owner);
    SplitNoSep(owner, '/');
    SplitNoSep(repo, '/');
  }

  /** Names made of `[\w.-]` characters hold no '/'. */
  lemma NamesHaveNoSlash(o: string)
    requires forall k :: 0 <= k < |o| ==> IsNameChar(o[k])
    ensures '/' !in o
  {
    assert forall k :: 0 <= k < |o| ==> o[k] != '/';
  }

  /** The URL built from an owner and a non-empty repository without '/' parses back to them. */
  lemma UrlParses(owner: string, repo: string)
    requires '/' !in owner && '/' !in repo && repo != []
    ensures ParseRepoUrl(Url(owner, repo)) == Some((owner, repo))
  {
    assert Url(owner, repo) == "https://github.com" + "/" + owner + "/" + repo;
    ParseLastTwo("https://github.com", owner, repo);
  }

  /** Parsing what `_extract_repo_url` built gives back exactly the captured owner and repository. */
  lemma ExtractThenParse(message: string)
    requires Captured(message).Some?
    ensures ParseRepoUrl(ExtractRepoUrl(message)) == Captured(message)
  {
    var (owner, repo) := Captured(message).value;
    CapturedNames(message);
    NamesHaveNoSlash(owner);
    NamesHaveNoSlash(repo);
    UrlParses(owner, repo);
  }

  // ---------------------------------------------------------------------------
  // The data the GitHub API returns

  /** One entry of the commits list; `None` where a key is absent. */
  datatype Commit = Commit(message: Option<string>, author: Option<string>, date: Option<string>)

  /**
    The repository's metadata. `None` is an absent key; a description that is present
    but JSON null is `Some(None)`, and a licence that is absent or null is `None`.
  */
  datatype RepoData = RepoData(
    stars: Option<nat>, forks: Option<nat>, issues: Option<nat>,
    description: Option<Option<string>>, topics: Option<seq<string>>,
    license: Option<Dict<string, string>>,
    created: Option<string>, updated: Option<string>, htmlUrl: Option<string>)

  /**
    What the requests gave back: a timeout, another exception, or the responses. The
    languages, README text and commits are already `{}`, "" and `[]` when their own
    request did not answer 200, and the README is already decoded.
  */
  datatype Fetched =
    | TimedOut
    | Failed(error: string)
    | Responded(status: nat, text: string, data: RepoData, languages: Dict<string, nat>, commits: seq<Commit>, readme: string)

  // ---------------------------------------------------------------------------
  // The summary

  /** `desc` as the f-string shows it: the default when absent, "None" when null. */
  function DescriptionText(d: Option<Option<string>>): string {
    match d
    case None => "No description"
    case Some(None) => "None"
    case Some(Some(text)) => text
  }

  /** The licence's `spdx_id`, or "Unknown" when the licence is missing or empty. */
  function LicenseName(license: Option<Dict<string, string>>): string {
    match license
    case None => "Unknown"
    case Some(info) => if info == [] then "Unknown" else Get(info, "spdx_id").GetOr("Unknown")
  }

  function Header(owner: string, repo: string, data: RepoData): string {
    "## \U{1F50D} Repository Analysis: [" + owner + "/" + repo + "](" + data.htmlUrl.GetOr("") + ")\n\n"
    + "**" + DescriptionText(data.description) + "**\n\n"
  }

  function Stats(data: RepoData): string {
    "| Metric | Value |\n|--------|-------|\n"
    + "| \U{2B50} Stars | " + Grouped(data.stars.GetOr(0)) + " |\n"
    + "| \U{1F374} Forks | " + Grouped(data.forks.GetOr(0)) + " |\n"
    + "| \U{1F41B} Open Issues | " + Grouped(data.issues.GetOr(0)) + " |\n"
    + "| \U{1F4DC} License | " + LicenseName(data.license) + " |\n"
    + "| \U{1F4C5} Created | " + Prefix(data.created.GetOr(""), 10) + " |\n"
    + "| \U{1F504} Last Updated | " + Prefix(data.updated.GetOr(""), 10) + " |\n\n"
  }

  /** `key=lambda x: -x[1]`: more bytes goes first. */
  predicate MoreBytes(a: (string, nat), b: (string, nat)) {
    a.1 > b.1
  }

  lemma MoreBytesWeakOrder()
    ensures WeakOrder(MoreBytes)
  {
  }

  /** The languages listed: the eight with the most bytes, largest first. */
  function LanguageRows(languages: Dict<string, nat>): seq<(string, nat)> {
    Prefix(Sort(languages, MoreBytes), 8)
  }

  /** At most eight languages are listed, in descending byte order, each one drawn from the dictionary. */
  lemma LanguageRowsSpec(languages: Dict<string, nat>)
    ensures |LanguageRows(languages)| == if |languages| < 8 then |languages| else 8
    ensures forall i, j :: 0 <= i < j < |LanguageRows(languages)| ==> LanguageRows(languages)[i].1 >= LanguageRows(languages)[j].1
    ensures multiset(LanguageRows(languages)) <= multiset(languages)
  {
    var sorted := Sort(languages, MoreBytes);
    MoreBytesWeakOrder();
    SortSorted(languages, MoreBytes);
    SortPermutation(languages, MoreBytes);
    var rows := LanguageRows(languages);
    assert |sorted| == |multiset(sorted)| == |multiset(languages)| == |languages|;
    assert sorted == rows + sorted[|rows|..];
    forall i, j | 0 <= i < j < |rows| ensures rows[i].1 >= rows[j].1 {
      assert rows[i] == sorted[i] && rows[j] == sorted[j];
    }
  }

  /** No language left out of the list has more bytes than one listed. */
  lemma LeftOutNoLarger(languages: Dict<string, nat>)
    ensures forall p, q :: p in multiset(languages) - multiset(LanguageRows(languages)) && q in LanguageRows(languages) ==> p.1 <= q.1
  {
    var sorted := Sort(languages, MoreBytes);
    MoreBytesWeakOrder();
    SortSorted(languages, MoreBytes);
    SortPermutation(languages, MoreBytes);
    var rows := LanguageRows(languages);
    var dropped := sorted[|rows|..];
    assert sorted == rows + dropped;
    assert multiset(languages) == multiset(rows) + multiset(dropped);
    forall p, q | p in multiset(languages) - multiset(rows) && q in rows ensures p.1 <= q.1 {
      assert p in multiset(dropped);
      var j :| 0 <= j < |dropped| && dropped[j] == p;
      var i :| 0 <= i < |rows| && rows[i] == q;
      assert sorted[|rows| + j] == p && sorted[i] == q;
    }
  }

  /** Equal byte counts keep the order the API returned them in. */
  lemma LanguageTiesStable(languages: Dict<string, nat>, p: (string, nat))
    ensures Peers(Sort(languages, MoreBytes), p, MoreBytes) == Peers(languages, p, MoreBytes)
  {
    MoreBytesWeakOrder();
    SortStable(languages, p, MoreBytes);
  }

  function LanguageLine(row: (string, nat), total: nat, share: (nat, nat) -> string): string {
    "- **" + row.0 + "**: " + share(row.1, total) + "\n"
  }

  function LanguageLines(rows: seq<(string, nat)>, total: nat, share: (nat, nat) -> string): string {
    if rows == [] then ""
    else LanguageLines(rows[..|rows| - 1], total, share) + LanguageLine(rows[|rows| - 1], total, share)
  }

  /** `sum(languages.values())`. */
  function Total(languages: Dict<string, nat>): nat {
    if languages == [] then 0 else languages[0].1 + Total(languages[1..])
  }

  /** The byte counts sum to 0 exactly when every language has 0 bytes. */
  lemma {:induction false} TotalZero(languages: Dict<string, nat>)
    ensures Total(languages) == 0 <==> forall i :: 0 <= i < |languages| ==> languages[i].1 == 0
  {
    if languages != [] {
      TotalZero(languages[1..]);
      assert forall i :: 1 <= i < |languages| ==> languages[i] == languages[1..][i - 1];
    }
  }

  /**
    `bytes_count / total` raises `ZeroDivisionError`: some language is listed, so the loop
    divides at least once, and the byte counts sum to 0.
  */
  predicate ZeroTotal(languages: Dict<string, nat>) {
    languages != [] && Total(languages) == 0
  }

  function LanguagesSection(languages: Dict<string, nat>, share: (nat, nat) -> string): string {
    if languages == [] then ""
    else "### \U{1F4BB} Languages\n" + LanguageLines(LanguageRows(languages), Total(languages), share) + "\n"
  }

  /** The topics shown, each in backticks: the first ten. */
  function Quoted(topics: seq<string>): (r: seq<string>)
    ensures |r| == |topics|
  {
    seq(|topics|, i requires 0 <= i < |topics| => "`" + topics[i] + "`")
  }

  function TopicsSection(topics: seq<string>): string {
    if topics == [] then ""
    else "### \U{1F3F7}\U{FE0F} Topics\n" + Join(Quoted(Prefix(topics, 10)), " ") + "\n\n"
  }

  /** A commit message's first line, cut to 80 characters. */
  function Headline(message: string): (m: string)
    ensures |m| <= 80 && |m| <= |message| && m == message[..|m|] && '\n' !in m
    ensures |m| < 80 ==> |m| == |message| || message[|m|] == '\n'
  {
    SplitFirst(message, '\n');
    Prefix(Split(message, '\n')[0], 80)
  }

  function CommitLine(c: Commit): string {
    "- `" + Prefix(c.date.GetOr(""), 10) + "` **" + c.author.GetOr("unknown") + "**: " + Headline(c.message.GetOr("")) + "\n"
  }

  function CommitLines(commits: seq<Commit>): string {
    if commits == [] then ""
    else CommitLines(commits[..|commits| - 1]) + CommitLine(commits[|commits| - 1])
  }

  function CommitsSection(commits: seq<Commit>): string {
    if commits == [] then ""
    else "### \U{1F4DD} Recent Commits\n" + CommitLines(Prefix(commits, 5)) + "\n"
  }

  function ReadmeSection(readme: string): string {
    if readme == [] then ""
    else "### \U{1F4D6} README Preview\n" + "```\n" + Prefix(readme, 500) + "\n```\n"
  }

  /** `_generate_summary`. */
  function Summary(owner: string, repo: string, data: RepoData, languages: Dict<string, nat>,
                   commits: seq<Commit>, readme: string, share: (nat, nat) -> string): string
  {
    Header(owner, repo, data) + Stats(data) + LanguagesSection(languages, share)
    + TopicsSection(data.topics.GetOr([])) + CommitsSection(commits) + ReadmeSection(readme)
  }

  /**
    The language loop: one line per listed language. Its first division by a zero total
    raises, which is `None` here.
  */
  method WriteLanguages(rows: seq<(string, nat)>, total: nat, share: (nat, nat) -> string) returns (t: Option<string>)
    ensures t.None? <==> rows != [] && total == 0
    ensures t.Some? ==> t.value == LanguageLines(rows, total, share)
  {
    var text := "";
    for i := 0 to |rows|
      invariant text == LanguageLines(rows[..i], total, share)
      invariant i > 0 ==> total != 0
    {
      if total == 0 {
        return None;
      }
      assert rows[..i + 1][..i] == rows[..i];
      text := text + LanguageLine(rows[i], total, share);
    }
    assert rows[..|rows|] == rows;
    return Some(text);
  }

  /** The commit loop: one line per listed commit. */
  method WriteCommits(commits: seq<Commit>) returns (t: string)
    ensures t == CommitLines(commits)
  {
    t := "";
    for i := 0 to |commits|
      invariant t == CommitLines(commits[..i])
    {
      assert commits[..i + 1][..i] == commits[..i];
      t := t + CommitLine(commits[i]);
    }
    assert commits[..|commits|] == commits;
  }

  /** The languages section, written line by line; `None` when the loop divides by a zero total. */
  method WriteLanguagesSection(languages: Dict<string, nat>, share: (nat, nat) -> string) returns (t: Option<string>)
    ensures t.None? <==> ZeroTotal(languages)
    ensures t.Some? ==> t.value == LanguagesSection(languages, share)
  {
    if languages == [] {
      return Some("");
    }
    LanguageRowsSpec(languages);
    var lines := WriteLanguages(LanguageRows(languages), Total(languages), share);
    match lines
    case None =>
      t := None;
    case Some(l) =>
      t := Some("### \U{1F4BB} Languages\n" + l + "\n");
  }

  /** The commits section, written line by line. */
  method WriteCommitsSection(commits: seq<Commit>) returns (t: string)
    ensures t == CommitsSection(commits)
  {
    t := "";
    if commits != [] {
      var lines := WriteCommits(Prefix(commits, 5));
      t := "### \U{1F4DD} Recent Commits\n" + lines + "\n";
    }
  }

  /**
    `_generate_summary`, building the text section by section as the source does; `None`
    when it raises `ZeroDivisionError` in the languages section.
  */
  method GenerateSummary(owner: string, repo: string, data: RepoData, languages: Dict<string, nat>,
                         commits: seq<Commit>, readme: string, share: (nat, nat) -> string) returns (r: Option<string>)
    ensures r.None? <==> ZeroTotal(languages)
    ensures r.Some? ==> r.value == Summary(owner, repo, data, languages, commits, readme, share)
  {
    var s := Header(owner, repo, data) + Stats(data);
    var langs := WriteLanguagesSection(languages, share);
    if langs.None? {
      return None;
    }
    s := s + langs.value;
    s := s + TopicsSection(data.topics.GetOr([]));
    var log := WriteCommitsSection(commits);
    s := s + log;
    s := s + ReadmeSection(readme);
    return Some(s);
  }

  // ---------------------------------------------------------------------------
  // execute

  const Guidance := "I couldn't find a repository URL in your message. Please provide a GitHub URL or mention a repo like 'owner/repo'."

  /** The task's `repo_url`, or else the one extracted from its `user_message`. */
  function RepoUrlOf(task: Fields): string {
    var given := Get(task, "repo_url").GetOr("");
    if given != "" then given else ExtractRepoUrl(Get(task, "user_message").GetOr(""))
  }

  /** The result once the requests for `owner/repo` have given `f`. */
  function Analysed(owner: string, repo: string, f: Fetched, share: (nat, nat) -> string): Fields {
    match f
    case TimedOut => ErrorResult("GitHub API timed out for " + owner + "/" + repo + ". Try again.")
    case Failed(e) => ErrorResult("Failed to analyze " + owner + "/" + repo + ": " + e)
    case Responded(status, text, data, languages, commits, readme) =>
      if status != 200 then ErrorResult("GitHub API error (" + NatToString(status) + "): " + Prefix(text, 200))
      else if ZeroTotal(languages) then ErrorResult(DivisionByZero(owner, repo))
      else SuccessResult(Summary(owner, repo, data, languages, commits, readme, share))
  }

  /** What the generic handler makes of the `ZeroDivisionError` in `_generate_summary`. */
  function DivisionByZero(owner: string, repo: string): string {
    "Failed to analyze " + owner + "/" + repo + ": division by zero"
  }

  /**
    A successful answer whose languages all have 0 bytes, such as `{"Python": 0}`, ends in
    the generic error: the percentage divides by a zero total.
  */
  lemma ZeroBytesFail(owner: string, repo: string, text: string, data: RepoData, languages: Dict<string, nat>,
                      commits: seq<Commit>, readme: string, share: (nat, nat) -> string)
    requires languages != [] && forall i :: 0 <= i < |languages| ==> languages[i].1 == 0
    ensures Analysed(owner, repo, Responded(200, text, data, languages, commits, readme), share)
         == ErrorResult(DivisionByZero(owner, repo))
  {
    TotalZero(languages);
  }

  /** With some language of non-zero size, a successful answer is summarised. */
  lemma SomeBytesSummarised(owner: string, repo: string, text: string, data: RepoData, languages: Dict<string, nat>,
                            commits: seq<Commit>, readme: string, share: (nat, nat) -> string, i: nat)
    requires i < |languages| && languages[i].1 > 0
    ensures Analysed(owner, repo, Responded(200, text, data, languages, commits, readme), share)
         == SuccessResult(Summary(owner, repo, data, languages, commits, readme, share))
  {
    TotalZero(languages);
  }

  /** `execute`. */
  function Execute(task: Fields, fetch: (string, string) -> Fetched, share: (nat, nat) -> string): (r: Fields)
    ensures RepoUrlOf(task) == "" ==> r == ErrorResult(Guidance)
    ensures Get(r, "status") == Some("success") ==>
      && ParseRepoUrl(RepoUrlOf(task)).Some?
      && var (owner, repo) := ParseRepoUrl(RepoUrlOf(task)).value;
         owner != "" && repo != "" && r == Analysed(owner, repo, fetch(owner, repo), share)
  {
    var url := RepoUrlOf(task);
    if url == "" then ErrorResult(Guidance)
    else
      match ParseRepoUrl(url)
      case Some((owner, repo)) =>
        if owner != "" && repo != "" then Analysed(owner, repo, fetch(owner, repo), share)
        else ErrorResult("Invalid repository format: " + url)
      case None => ErrorResult("Invalid repository format: " + url)
  }

  /**
    With no `repo_url` and no `x/y` token anywhere in the message, the result is the
    guidance error whatever the API would have answered: no request is made.
  */
  lemma NoRepoGuidance(task: Fields, fetch: (string, string) -> Fetched, share: (nat, nat) -> string)
    requires Get(task, "repo_url").GetOr("") == ""
    requires forall k :: 0 <= k <= |Get(task, "user_message").GetOr("")| ==> PairAt(Get(task, "user_message").GetOr(""), k).None?
    ensures Execute(task, fetch, share) == ErrorResult(Guidance)
  {
    ExtractEmptyIff(Get(task, "user_message").GetOr(""));
  }

  /** A given `repo_url` with no '/' in it has one segment: an invalid-format error, before any request. */
  lemma NoSlashInvalid(task: Fields, fetch: (string, string) -> Fetched, share: (nat, nat) -> string)
    requires Get(task, "repo_url").GetOr("") != "" && '/' !in Get(task, "repo_url").GetOr("")
    ensures Execute(task, fetch, share) == ErrorResult("Invalid repository format: " + Get(task, "repo_url").GetOr(""))
  {
    var url := Get(task, "repo_url").GetOr("");
    assert RStripChars(url, {'/'}) == url;
    SplitNoSep(url, '/');
  }

  /** "/repo" has an empty owner segment. */
  lemma ParseEmptyOwner(repo: string)
    requires repo != [] && '/' !in repo
    ensures ParseRepoUrl("/" + repo) == Some(("", repo))
  {
    var url := "/" + repo;
    assert url[|url| - 1] == repo[|repo| - 1];
    assert RStripChars(url, {'/'}) == url;
    assert url == "" + ['/'] + repo;
    SplitAround("", '/', repo);
    SplitNoSep(repo, '/');
  }

  /** A given `repo_url` whose owner segment is empty, such as "/fastapi", is an invalid format. */
  lemma EmptyOwnerInvalid(task: Fields, repo: string, fetch: (string, string) -> Fetched, share: (nat, nat) -> string)
    requires Get(task, "repo_url") == Some("/" + repo) && repo != [] && '/' !in repo
    ensures Execute(task, fetch, share) == ErrorResult("Invalid repository format: /" + repo)
  {
    ParseEmptyOwner(repo);
    assert "Invalid repository format: " + ("/" + repo) == "Invalid repository format: /" + repo;
  }

  /** A message naming `owner/repo` leads to exactly one request, for that owner and repository. */
  lemma ExtractedIsFetched(task: Fields, fetch: (string, string) -> Fetched, share: (nat, nat) -> string)
    requires Get(task, "repo_url").GetOr("") == ""
    requires Captured(Get(task, "user_message").GetOr("")).Some?
    ensures var (owner, repo) := Captured(Get(task, "user_message").GetOr("")).value;
      Execute(task, fetch, share) == Analysed(owner, repo, fetch(owner, repo), share)
  {
    var message := Get(task, "user_message").GetOr("");
    ExtractThenParse(message);
    CapturedNames(message);
  }
}
