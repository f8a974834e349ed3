/**
  The conversation front end: a three-stage intent classifier (drive-path override,
  ordered keyword table, fallback to the external model), the retry policy around the
  external model, and the routing of each intent to a worker of the swarm engine.

  The external model is an oracle from the call number and the prompt to a reply. The
  clock is an integer number of milliseconds; a call to the model takes no time, and
  time passes between calls only through `Elapse`. Sleeps advance the clock and are
  recorded in a ghost log.
*/
module Conversation {
  import opened Wrappers
  import opened Dicts
  import opened Text
  import opened MultiSwarm

  /** The `Intent` enumeration. */
  datatype Intent = RepoAnalysis | PaperSearch | GeneralQa | ProjectContext {
    /** The enumeration member's `value`. */
    function Value(): string {
      match this
      case RepoAnalysis => "repo_analysis"
      case PaperSearch => "paper_search"
      case GeneralQa => "general_qa"
      case ProjectContext => "project_context"
    }
  }

  /** `INTENT_KEYWORDS`, in the dictionary's insertion order. */
  const IntentKeywords: seq<(Intent, seq<string>)> := [
    (RepoAnalysis, ["repo", "repository", "github", "analyze repo", "codebase",
                    "code structure", "architecture of", "clone",
                    "pull request", "commit history", "branch"]),
    (PaperSearch, ["paper", "papers", "arxiv", "research paper", "study",
                   "journal", "publication", "academic", "thesis", "survey"]),
    (ProjectContext, ["read the content", "read file", "show file", "open file",
                      "readme", "list directory", "list files", "show me",
                      "project structure", "my project", "my stack", "my setup",
                      "my code", "my dependencies", "my repo",
                      "devpulseai", "requirements.txt", "package.json",
                      ".env", ".py file", ".md file"])
  ]

  const MaxRetries: nat := 3
  /** `BASE_DELAY`, in milliseconds. */
  const BaseDelayMs: nat := 3000
  /** The minimum gap between two calls to the external model, in milliseconds. */
  const MinGapMs: int := 1500

  /** The regular expression `[a-z]:[/\\]` matches `s` at index `i`. */
  predicate DriveAt(s: string, i: nat) {
    i + 3 <= |s| && 'a' <= s[i] <= 'z' && s[i + 1] == ':' && (s[i + 2] == '/' || s[i + 2] == '\\')
  }

  /** `re.search(r'[a-z]:[/\\]', s)` finds a match. */
  predicate HasDrivePath(s: string) {
    exists i :: 0 <= i < |s| && DriveAt(s, i)
  }

  /** Stage one: a drive path in a message that holds neither "github.com" nor "https://". */
  predicate PathOverride(lower: string) {
    HasDrivePath(lower) && !Contains(lower, "github.com") && !Contains(lower, "https://")
  }

  /** Stage two: the first intent of `table` one of whose keywords occurs in `lower`. */
  function FirstKeywordIntent(table: seq<(Intent, seq<string>)>, lower: string): Option<Intent> {
    if table == [] then None
    else if ContainsAny(lower, table[0].1) then Some(table[0].0)
    else FirstKeywordIntent(table[1..], lower)
  }

  /**
    The keyword stage decides nothing exactly when no entry has a keyword in the message,
    and otherwise picks the first entry, in table order, that has one.
  */
  lemma {:induction false} FirstKeywordIntentSpec(table: seq<(Intent, seq<string>)>, lower: string)
    ensures var r := FirstKeywordIntent(table, lower);
      && (r.None? <==> forall k :: 0 <= k < |table| ==> !ContainsAny(lower, table[k].1))
      && (r.Some? ==> exists k :: 0 <= k < |table| && table[k].0 == r.value && ContainsAny(lower, table[k].1)
                                 && forall j :: 0 <= j < k ==> !ContainsAny(lower, table[j].1))
  {
    if table != [] && !ContainsAny(lower, table[0].1) {
      FirstKeywordIntentSpec(table[1..], lower);
      assert forall k :: 1 <= k < |table| ==> table[k] == table[1..][k - 1];
      var r := FirstKeywordIntent(table, lower);
      if r.Some? {
        var k :| 0 <= k < |table[1..]| && table[1..][k].0 == r.value && ContainsAny(lower, table[1..][k].1)
                 && forall j :: 0 <= j < k ==> !ContainsAny(lower, table[1..][j].1);
        assert table[k + 1].0 == r.value && ContainsAny(lower, table[k + 1].1);
        assert forall j :: 0 <= j < k + 1 ==> !ContainsAny(lower, table[j].1) by {
          forall j | 0 <= j < k + 1 ensures !ContainsAny(lower, table[j].1) {
            if j > 0 { assert table[j] == table[1..][j - 1]; }
          }
        }
      }
    }
  }

  /**
    The intent decided without calling the external model, if any: the drive-path override
    or a keyword decides, and neither ever yields GENERAL_QA.
  */
  function LocalIntent(message: string): (r: Option<Intent>)
    ensures PathOverride(Lower(message)) ==> r == Some(ProjectContext)
    ensures r != Some(GeneralQa)
  {
    var lower := Lower(message);
    if PathOverride(lower) then Some(ProjectContext)
    else
      FirstKeywordIntentSpec(IntentKeywords, lower);
      FirstKeywordIntent(IntentKeywords, lower)
  }

  /** Stage three: the intent named by the model's reply, checked by substring in this order. */
  function IntentFromReply(reply: string): Intent {
    var s := Lower(Strip(reply));
    if Contains(s, "repo") then RepoAnalysis
    else if Contains(s, "paper") then PaperSearch
    else if Contains(s, "project") then ProjectContext
    else GeneralQa
  }

  /**
    What is sent to the external model: the classification request built around a
    message, or a message passed on as it is. The oracle receives the request itself;
    the classification prompt's literal wording is not reproduced.
  */
  datatype Prompt = Classify(message: string) | Ask(message: string)

  /** What one call of the external model does: return a text or raise with a message. */
  datatype Reply = Replied(text: string) | Fails(error: string)

  /** What `_gemini_call_with_retry` does: return the text or raise the last error. */
  datatype CallResult = Answered(text: string) | Failed(error: string)

  /** A run of the retry loop: its result, the number of model calls and the back-off sleeps. */
  datatype Retry = Retry(result: CallResult, attempts: nat, backoff: seq<int>)

  /** An error counts as a rate limit when its text holds "429" or "Resource exhausted". */
  predicate IsRateLimit(error: string) {
    Contains(error, "429") || Contains(error, "Resource exhausted")
  }

  function Pow2(k: nat): (p: nat)
    ensures p >= 1
  {
    if k == 0 then 1 else 2 * Pow2(k - 1)
  }

  /**
    The retry loop from attempt `attempt` on, where `replies[k]` is the model's answer to
    attempt `k`: every attempt before the last one failed on a rate limit and was followed
    by a back-off of `BASE_DELAY * 2^k`; the last one answered, failed on something else,
    or was the third.
  */
  function RetryFrom(replies: seq<Reply>, attempt: nat): (t: Retry)
    requires attempt < MaxRetries == |replies|
    ensures attempt < t.attempts <= MaxRetries
    ensures |t.backoff| == t.attempts - 1 - attempt
    decreases MaxRetries - attempt
  {
    match replies[attempt]
    case Replied(s) => Retry(Answered(s), attempt + 1, [])
    case Fails(e) =>
      if IsRateLimit(e) && attempt < MaxRetries - 1 then
        var rest := RetryFrom(replies, attempt + 1);
        Retry(rest.result, rest.attempts, [BaseDelayMs * Pow2(attempt)] + rest.backoff)
      else Retry(Failed(e), attempt + 1, [])
  }

  /**
    What the retry loop promises: the k-th back-off is `BASE_DELAY * 2^k`, every attempt
    before the last failed on a rate limit, and the result is the last attempt's reply,
    which is an error only when it is not a rate limit or the attempts are used up.
  */
  lemma {:induction false} RetrySpec(replies: seq<Reply>, attempt: nat)
    requires attempt < MaxRetries == |replies|
    ensures var t := RetryFrom(replies, attempt);
      && (forall j :: 0 <= j < |t.backoff| ==> t.backoff[j] == BaseDelayMs * Pow2(attempt + j))
      && (forall k :: attempt <= k < t.attempts - 1 ==> replies[k].Fails? && IsRateLimit(replies[k].error))
      && match t.result
         case Answered(s) => replies[t.attempts - 1] == Replied(s)
         case Failed(e) => replies[t.attempts - 1] == Fails(e) && (t.attempts == MaxRetries || !IsRateLimit(e))
    decreases MaxRetries - attempt
  {
    match replies[attempt]
    case Replied(_) =>
    case Fails(e) =>
      if IsRateLimit(e) && attempt < MaxRetries - 1 {
        RetrySpec(replies, attempt + 1);
        var t := RetryFrom(replies, attempt);
        var rest := RetryFrom(replies, attempt + 1);
        forall j | 0 <= j < |t.backoff| ensures t.backoff[j] == BaseDelayMs * Pow2(attempt + j) {
          if j > 0 { assert t.backoff[j] == rest.backoff[j - 1]; }
        }
      }
  }

  /** The first `n` back-off delays: `BASE_DELAY * 2^k` for k = 0 … n-1. */
  function Backoffs(n: nat): (b: seq<int>)
    ensures |b| == n
  {
    seq(n, k requires 0 <= k => BaseDelayMs * Pow2(k))
  }

  /**
    After `a` rate-limited attempts the loop goes on as if it started at attempt `a`,
    having slept the first `a` back-off delays.
  */
  lemma {:induction false} RetrySkip(replies: seq<Reply>, a: nat)
    requires a < MaxRetries == |replies|
    requires forall k :: 0 <= k < a ==> replies[k].Fails? && IsRateLimit(replies[k].error)
    ensures var t := RetryFrom(replies, 0);
      var u := RetryFrom(replies, a);
      t.result == u.result && t.attempts == u.attempts && t.backoff == Backoffs(a) + u.backoff
    decreases a
  {
    if a > 0 {
      RetrySkip(replies, a - 1);
      var u := RetryFrom(replies, a);
      var d := BaseDelayMs * Pow2(a - 1);
      assert RetryFrom(replies, a - 1) == Retry(u.result, u.attempts, [d] + u.backoff);
      assert Backoffs(a) == Backoffs(a - 1) + [d];
      assert Backoffs(a - 1) + ([d] + u.backoff) == Backoffs(a) + u.backoff;
    }
  }

  /** The back-off sleeps are 3 s and then 6 s; the 12 s step is never reached. */
  lemma BackoffSteps(replies: seq<Reply>)
    requires |replies| == MaxRetries
    ensures RetryFrom(replies, 0).backoff <= [3000, 6000]
  {
    var t := RetryFrom(replies, 0);
    RetrySpec(replies, 0);
    assert Pow2(1) == 2;
    if |t.backoff| == 2 {
      assert t.backoff == [3000, 6000];
    }
  }

  /** A failure that is not a rate limit is raised after one call and no back-off. */
  lemma OtherErrorRaisesAtOnce(replies: seq<Reply>, e: string)
    requires |replies| == MaxRetries && replies[0] == Fails(e) && !IsRateLimit(e)
    ensures RetryFrom(replies, 0) == Retry(Failed(e), 1, [])
  {
  }

  /** Three rate-limit failures in a row raise the third one after sleeping 3 s and 6 s. */
  lemma RateLimitedThrice(replies: seq<Reply>)
    requires |replies| == MaxRetries
    requires forall k :: 0 <= k < 3 ==> replies[k].Fails? && IsRateLimit(replies[k].error)
    ensures RetryFrom(replies, 0) == Retry(Failed(replies[2].error), 3, [3000, 6000])
  {
    var t := RetryFrom(replies, 0);
    RetrySpec(replies, 0);
    assert Pow2(1) == 2;
    assert t.backoff == [3000, 6000];
  }

  /** The sleep before the first attempt when only `elapsed` ms have passed since the last call. */
  function GapSleep(elapsed: int): (s: seq<int>)
    ensures |s| <= 1
    ensures s != [] <==> elapsed < MinGapMs
    ensures forall k :: 0 <= k < |s| ==> s[k] > 0 && elapsed + s[k] == MinGapMs
  {
    if elapsed < MinGapMs then [MinGapMs - elapsed] else []
  }

  /** What `detect_intent` decides and how many model calls it makes. */
  datatype Detection = Detection(intent: Intent, calls: nat)

  /**
    `detect_intent` where `replies[k]` is the model's answer to the k-th attempt: the local
    stages first, without a call; otherwise the model's reply, and `GENERAL_QA` when it raised.
  */
  function Detect(message: string, replies: seq<Reply>): (d: Detection)
    requires |replies| == MaxRetries
    ensures LocalIntent(message).Some? ==> d == Detection(LocalIntent(message).value, 0)
    ensures LocalIntent(message).None? ==> 1 <= d.calls <= MaxRetries
  {
    match LocalIntent(message)
    case Some(i) => Detection(i, 0)
    case None =>
      var t := RetryFrom(replies, 0);
      match t.result
      case Answered(s) => Detection(IntentFromReply(s), t.attempts)
      case Failed(_) => Detection(GeneralQa, t.attempts)
  }

  /** A drive path decides the intent even where the keyword table alone would pick a repository analysis. */
  lemma LocalPathOverridesRepoKeyword()
    ensures FirstKeywordIntent(IntentKeywords, Lower("Repo at D:/x")) == Some(RepoAnalysis)
    ensures LocalIntent("Repo at D:/x") == Some(ProjectContext)
  {
    var lower := "repo at d:/x";
    assert Lower("Repo at D:/x") == lower;
    DrivePathExample(lower);
    assert OccursAt(lower, "repo", 0);
    assert IntentKeywords[0].1[0] == "repo";
  }

  /** The lowered example message holds a drive path and no link. */
  lemma DrivePathExample(lower: string)
    requires lower == "repo at d:/x"
    ensures PathOverride(lower)
  {
    assert DriveAt(lower, 8);
    if Contains(lower, "github.com") {
      ContainsChars(lower, "github.com", 'g');
    }
    if Contains(lower, "https://") {
      ContainsChars(lower, "https://", 'h');
    }
  }

  /** "http://" holds the match "p:/", so a plain-HTTP link counts as a drive path. */
  lemma PlainHttpLooksLikeDrivePath(before: string, after: string)
    requires !Contains(Lower(before + "http://" + after), "github.com")
    requires !Contains(Lower(before + "http://" + after), "https://")
    ensures LocalIntent(before + "http://" + after) == Some(ProjectContext)
  {
    var lower := Lower(before + "http://" + after);
    assert DriveAt(lower, |before| + 3);
  }

  /** The keyword table is tried in order: "my repo" is a repository request, not a project one. */
  lemma MyRepoIsRepoAnalysis()
    ensures LocalIntent("my repo") == Some(RepoAnalysis)
  {
    assert Lower("my repo") == "my repo";
    assert OccursAt("my repo", "repo", 3);
    assert IntentKeywords[0].1[0] == "repo";
  }

  /** With no local decision, the reply decides the intent and a raised error gives `GENERAL_QA`. */
  lemma DetectFallback(message: string, replies: seq<Reply>)
    requires |replies| == MaxRetries && LocalIntent(message).None?
    ensures replies[0].Fails? && !IsRateLimit(replies[0].error) ==> Detect(message, replies) == Detection(GeneralQa, 1)
    ensures replies[0].Replied? ==> Detect(message, replies) == Detection(IntentFromReply(replies[0].text), 1)
  {
  }

  /** The worker each intent is sent to, the swarm it is filed in, and the default summary. */
  datatype Route = Route(worker: string, swarm: string, default: string)

  function RouteFor(i: Intent): Option<Route> {
    match i
    case RepoAnalysis => Some(Route("RepoResearcher", "research", "No summary available."))
    case PaperSearch => Some(Route("PaperAnalyst", "analysis", "No papers found."))
    case ProjectContext => Some(Route("ProjectExplorer", "local", "Could not read project context."))
    case GeneralQa => None
  }

  /** The worker answering a message of intent `i` runs: the one its route's name finds, if any. */
  function RouteTarget(i: Intent, registry: Dict<string, string>, roster: Roster): (w: Option<Worker>)
    ensures RouteFor(i).None? ==> w.None?
    ensures RouteFor(i).Some? ==> w == LookupWorker(registry, roster, RouteFor(i).value.worker)
  {
    match RouteFor(i)
    case Some(route) => LookupWorker(registry, roster, route.worker)
    case None => None
  }

  /** The reply shown when the direct call to the model keeps hitting its rate limit. */
  const RateLimitMessage: string :=
    "\U{23F3} **Rate limit reached** \U{2014} Gemini API is temporarily throttled.\n\n"
    + "Please wait ~15 seconds and try again, or try queries that use local workers instead:\n"
    + "- \U{1F4C2} `Read README.md` \U{2014} reads local files\n"
    + "- \U{1F50D} `Analyze owner/repo` \U{2014} repo analysis\n"
    + "- \U{1F4C4} `Find papers on topic` \U{2014} paper search"

  const ErrorPrefix := "Sorry, I encountered an error: "

  /** The answer to a general question: the model's text, or a message for its error. */
  function AnswerOf(c: CallResult): string {
    match c
    case Answered(t) => t
    case Failed(e) => if IsRateLimit(e) then RateLimitMessage else ErrorPrefix + e
  }

  /** The answer to a general question when the model gives `replies` to the three attempts. */
  function GeneralAnswer(replies: seq<Reply>): (a: string)
    requires |replies| == MaxRetries
    ensures || Replied(a) in replies
            || a == RateLimitMessage
            || (&& |a| >= |ErrorPrefix| && a[..|ErrorPrefix|] == ErrorPrefix
                && Fails(a[|ErrorPrefix|..]) in replies && !IsRateLimit(a[|ErrorPrefix|..]))
  {
    RetrySpec(replies, 0);
    AnswerOf(RetryFrom(replies, 0).result)
  }

  /**
    A general question is always answered: with the first reply's text, with an apology
    quoting an error that is not a rate limit, or, after three rate limits, with the fixed
    rate-limit message.
  */
  lemma GeneralAnswerCases(replies: seq<Reply>)
    requires |replies| == MaxRetries
    ensures replies[0].Replied? ==> GeneralAnswer(replies) == replies[0].text
    ensures replies[0].Fails? && !IsRateLimit(replies[0].error) ==>
      GeneralAnswer(replies) == ErrorPrefix + replies[0].error
    ensures (forall k :: 0 <= k < MaxRetries ==> replies[k].Fails? && IsRateLimit(replies[k].error)) ==>
      GeneralAnswer(replies) == RateLimitMessage
  {
    if forall k :: 0 <= k < MaxRetries ==> replies[k].Fails? && IsRateLimit(replies[k].error) {
      RateLimitedThrice(replies);
    }
  }

  /** The answer `process_message` gives for a routed intent: the result's summary or the default. */
  function SummaryOr(result: Fields, default: string): string {
    Get(result, "summary").GetOr(default)
  }

  /**
    `inject_context`: four distinct keys, holding the message, the intent's value (which is
    also the task type a worker sees), the conversation id and a timestamp.
  */
  function InjectContext(message: string, i: Intent, conversationId: string, timestamp: string): (r: Fields)
    ensures UniqueKeys(r) && Keys(r) == ["user_message", "intent", "conversation_id", "timestamp"]
    ensures Get(r, "user_message") == Some(message) && Get(r, "intent") == Some(i.Value())
    ensures Get(r, "conversation_id") == Some(conversationId) && Get(r, "timestamp") == Some(timestamp)
    ensures TaskType(r) == i.Value()
  {
    [("user_message", message), ("intent", i.Value()), ("conversation_id", conversationId), ("timestamp", timestamp)]
  }

  /** The worker registry the constructor leaves behind. */
  const WiredRegistry: Dict<string, string> :=
    [("RepoResearcher", "research"), ("PaperAnalyst", "analysis"), ("ProjectExplorer", "local")]

  /** The swarm tables the constructor leaves behind. */
  function WiredTables(researcher: Worker, analyst: Worker, explorer: Worker): Roster {
    [("research", [("RepoResearcher", researcher)]),
     ("analysis", [("PaperAnalyst", analyst)]),
     ("local", [("ProjectExplorer", explorer)])]
  }

  /** The wired registry and tables file no name twice. */
  lemma WiredUnique(researcher: Worker, analyst: Worker, explorer: Worker)
    ensures UniqueKeys(WiredRegistry) && UniqueKeys(WiredTables(researcher, analyst, explorer))
  {
    var t := WiredTables(researcher, analyst, explorer);
    assert t[0].0[0] == 'r' && t[1].0[0] == 'a' && t[2].0[0] == 'l';
  }

  /** In the wired swarms every routed intent reaches its worker, which runs the context and is logged once. */
  lemma WiredRouting(researcher: Worker, analyst: Worker, explorer: Worker, i: Intent, task: Fields)
    requires RouteFor(i).Some?
    ensures var r := RouteFor(i).value;
      var w := if i == RepoAnalysis then researcher else if i == PaperSearch then analyst else explorer;
      && LookupWorker(WiredRegistry, WiredTables(researcher, analyst, explorer), r.worker) == Some(w)
      && DispatchResult(WiredRegistry, WiredTables(researcher, analyst, explorer), r.worker, task) == Settle(w.execute(task))
      && DispatchLog(WiredRegistry, WiredTables(researcher, analyst, explorer), r.worker, task)
         == [ExecutionRecord(r.worker, r.swarm, TaskType(task))]
  {
    var t := WiredTables(researcher, analyst, explorer);
    var r := RouteFor(i).value;
    var w := if i == RepoAnalysis then researcher else if i == PaperSearch then analyst else explorer;
    WiredUnique(researcher, analyst, explorer);
    var k := if i == RepoAnalysis then 0 else if i == PaperSearch then 1 else 2;
    assert WiredRegistry[k] == (r.worker, r.swarm) && t[k] == (r.swarm, [(r.worker, w)]);
    RoutedAt(WiredRegistry, t, k, r.worker, w);
    DispatchAgreesWithLookup(WiredRegistry, t, r.worker, task);
  }

  /** A name registered at position `k` for the swarm filed at position `k`, alone in its table, is found there. */
  lemma RoutedAt(registry: Dict<string, string>, t: Roster, k: nat, name: string, w: Worker)
    requires UniqueKeys(registry) && UniqueKeys(t) && k < |registry| && k < |t|
    requires registry[k] == (name, t[k].0) && t[k].0 != "" && t[k].1 == [(name, w)]
    ensures RouteOf(registry, t, name) == Routed(t[k].0, t[k].1)
    ensures LookupWorker(registry, t, name) == Some(w)
  {
    GetAt(registry, k);
    GetAt(t, k);
    GetAt(t[k].1, 0);
  }

  /** Registering into a swarm already filed at position `k` changes that swarm's table alone. */
  lemma RegisterInto(t: Roster, k: nat, name: string, w: Worker)
    requires UniqueKeys(t) && k < |t|
    ensures Put(t, t[k].0, Put(Get(t, t[k].0).GetOr([]), name, w)) == t[k := (t[k].0, Put(t[k].1, name, w))]
  {
    GetAt(t, k);
    PutAt(t, t[k].0, Put(t[k].1, name, w), k);
  }

  /** The three swarms `__init__` creates, still empty. */
  const EmptyTables: Roster := [("research", []), ("analysis", []), ("local", [])]

  /** `__init__`'s swarm engine with its three swarms and no worker yet. */
  method NewSwarms() returns (m: SwarmManager)
    ensures fresh(m) && m.Valid() && forall i :: 0 <= i < |m.swarms| ==> fresh(m.swarms[i].1)
    ensures m.workerRegistry == [] && m.Tables() == EmptyTables
    ensures m.messageBus == [] && m.executionLog == []
  {
    assert "research"[0] != "analysis"[0] && "research"[0] != "local"[0] && "analysis"[0] != "local"[0];
    m := CreateThree("research", "Code & repository analysis", "analysis", "Paper & data analysis",
                     "local", "Local project & file operations");
  }

  /** A new engine and three `create_swarm` calls under distinct names. */
  method CreateThree(n1: string, d1: string, n2: string, d2: string, n3: string, d3: string) returns (m: SwarmManager)
    requires n1 != n2 && n1 != n3 && n2 != n3
    ensures fresh(m) && m.Valid() && forall i :: 0 <= i < |m.swarms| ==> fresh(m.swarms[i].1)
    ensures m.workerRegistry == [] && m.Tables() == [(n1, []), (n2, []), (n3, [])]
    ensures m.messageBus == [] && m.executionLog == []
  {
    m := new SwarmManager();
    var s1 := CreateNew(m, n1, d1);
    var s2 := CreateNew(m, n2, d2);
    var s3 := CreateNew(m, n3, d3);
    assert m.swarms == [(n1, s1), (n2, s2), (n3, s3)];
    ThreeEmptyTables(m, n1, n2, n3);
  }

  /** Three empty swarms filed in order give three empty tables. */
  lemma ThreeEmptyTables(m: SwarmManager, n1: string, n2: string, n3: string)
    requires |m.swarms| == 3 && m.swarms[0].0 == n1 && m.swarms[1].0 == n2 && m.swarms[2].0 == n3
    requires forall i :: 0 <= i < 3 ==> m.swarms[i].1.workers == []
    ensures m.Tables() == [(n1, []), (n2, []), (n3, [])]
  {
    var t := m.Tables();
    assert t[0] == (n1, []) && t[1] == (n2, []) && t[2] == (n3, []);
  }

  /** `create_swarm` under a name not yet taken: the new, empty swarm is filed last. */
  method CreateNew(m: SwarmManager, name: string, description: string) returns (s: Swarm)
    requires m.Valid() && name !in Keys(m.swarms)
    modifies m`swarms
    ensures m.Valid() && fresh(s) && s.workers == []
    ensures m.swarms == old(m.swarms) + [(name, s)]
  {
    s := m.CreateSwarm(name, description);
  }

  /** `register_worker` into the swarm at position `k`: only that swarm's table changes. */
  method RegisterAt(m: SwarmManager, w: Worker, k: nat)
    requires m.Valid() && k < |m.swarms|
    modifies m`swarms, m`workerRegistry, m.SwarmSet()
    ensures m.Valid() && m.swarms == old(m.swarms)
    ensures m.workerRegistry == Put(old(m.workerRegistry), w.name, old(m.swarms[k].0))
    ensures m.Tables() == old(m.Tables())[k := (old(m.swarms[k].0), Put(old(m.swarms[k].1.workers), w.name, w))]
  {
    ghost var t := m.Tables();
    assert Keys(t) == Keys(m.swarms);
    assert m.swarms[k].0 in Keys(m.swarms);
    m.RegisterWorker(w, m.swarms[k].0);
    RegisterInto(t, k, w.name, w);
  }

  /** Filing the three workers one after the other gives the wired registry. */
  lemma WiredRegistryBuilt()
    ensures Put(Put(Put([], "RepoResearcher", "research"), "PaperAnalyst", "analysis"), "ProjectExplorer", "local")
            == WiredRegistry
  {
    assert "RepoResearcher"[0] != "PaperAnalyst"[0];
    assert "RepoResearcher"[1] != "ProjectExplorer"[1] && "PaperAnalyst"[1] != "ProjectExplorer"[1];
  }

  /** Filing each worker into its own empty swarm gives the wired tables. */
  lemma WiredTablesBuilt(r: Worker, a: Worker, e: Worker)
    requires r.name == "RepoResearcher" && a.name == "PaperAnalyst" && e.name == "ProjectExplorer"
    ensures EmptyTables[0 := ("research", Put([], r.name, r))][1 := ("analysis", Put([], a.name, a))]
              [2 := ("local", Put([], e.name, e))] == WiredTables(r, a, e)
  {
  }

  /** `__init__`'s three registrations, each into the swarm of the same position. */
  method RegisterWired(m: SwarmManager, r: Worker, a: Worker, e: Worker)
    requires m.Valid() && m.workerRegistry == [] && m.Tables() == EmptyTables
    requires r.name == "RepoResearcher" && a.name == "PaperAnalyst" && e.name == "ProjectExplorer"
    modifies m`swarms, m`workerRegistry, m.SwarmSet()
    ensures m.Valid() && m.workerRegistry == WiredRegistry && m.Tables() == WiredTables(r, a, e)
  {
    ghost var t0 := m.Tables();
    assert t0[0] == (m.swarms[0].0, m.swarms[0].1.workers);
    assert t0[1] == (m.swarms[1].0, m.swarms[1].1.workers);
    assert t0[2] == (m.swarms[2].0, m.swarms[2].1.workers);
    WiredRegistryBuilt();
    WiredTablesBuilt(r, a, e);
    ghost var t1 := t0[0 := ("research", Put([], r.name, r))];
    ghost var t2 := t1[1 := ("analysis", Put([], a.name, a))];
    RegisterAt(m, r, 0);
    assert m.Tables() == t1;
    assert m.swarms[1].1.workers == [] && m.swarms[2].1.workers == [];
    RegisterAt(m, a, 1);
    assert m.Tables() == t2;
    assert m.swarms[2].1.workers == [];
    RegisterAt(m, e, 2);
  }

  /** The three workers `__init__` creates, running the given executions. */
  ghost predicate WiredWorkers(r: Worker, a: Worker, e: Worker,
                               research: Fields -> Outcome, analyse: Fields -> Outcome, explore: Fields -> Outcome)
  {
    && r.name == "RepoResearcher" && r.capabilities == [] && r.execute == research
    && a.name == "PaperAnalyst" && a.capabilities == [] && a.execute == analyse
    && e.name == "ProjectExplorer" && e.execute == explore
    && e.capabilities == ["file_read", "project_context", "directory_list"]
  }

  /** The swarm engine holds the three swarms with one wired worker each. */
  ghost predicate WiredEngine(m: SwarmManager, r: Worker, a: Worker, e: Worker)
    reads m, m.SwarmSet()
  {
    m.Valid() && m.workerRegistry == WiredRegistry && m.Tables() == WiredTables(r, a, e)
  }

  /** `__init__`'s swarm engine: three swarms, three workers, nothing sent or run yet. */
  method Wire(research: Fields -> Outcome, analyse: Fields -> Outcome, explore: Fields -> Outcome)
    returns (m: SwarmManager, r: Worker, a: Worker, e: Worker)
    ensures fresh(m) && WiredEngine(m, r, a, e) && WiredWorkers(r, a, e, research, analyse, explore)
    ensures m.messageBus == [] && m.executionLog == []
  {
    m := NewSwarms();
    r := new Worker("RepoResearcher", [], research);
    a := new Worker("PaperAnalyst", [], analyse);
    e := new Worker("ProjectExplorer", ["file_read", "project_context", "directory_list"], explore);
    RegisterWired(m, r, a, e);
  }

  /** `__init__`'s key check: the given key, else the environment's; `None` where the source raises. */
  function ResolveApiKey(given: string, env: Option<string>): (r: Option<string>)
    ensures r.Some? ==> r.value != "" && (r.value == given || env == Some(r.value))
    ensures r.None? <==> given == "" && (env.None? || env == Some(""))
  {
    if given != "" then Some(given)
    else match env
      case Some(k) => if k != "" then Some(k) else None
      case None => None
  }

  class ConversationManager {
    const apiKey: string
    const swarm: SwarmManager
    const conversationId: string
    /** The external model: its reply to the n-th call, given the prompt. */
    const generate: (nat, Prompt) -> Reply
    /** The workers the constructor registers. */
    ghost const researcher: Worker
    ghost const analyst: Worker
    ghost const explorer: Worker
    /** `time.time()`, in milliseconds. */
    var now: int
    /** `_last_api_call`, in milliseconds. */
    var lastApiCall: int
    /** The number of calls made to the external model so far. */
    var calls: nat
    /** Every sleep, in milliseconds, oldest first. */
    ghost var sleeps: seq<int>
    /** The clock reading at construction. */
    ghost const epoch: int
    /** The time that has passed outside the manager since construction. */
    ghost var waited: int
    /** The total of `sleeps`. */
    ghost var slept: int

    /** The clock has moved only by time passing outside and by the manager's own sleeps. */
    ghost predicate Clock()
      reads this`now, this`waited, this`slept
    {
      now == epoch + waited + slept
    }

    /** The swarm engine still holds the three swarms and three workers the constructor set up. */
    ghost predicate Valid()
      reads swarm, swarm.SwarmSet()
    {
      WiredEngine(swarm, researcher, analyst, explorer)
    }

    /**
      `__init__` with a usable key: three swarms, each holding one of the three workers,
      and no API call yet (`_last_api_call` is 0).
    */
    constructor (apiKey: string, conversationId: string, generate: (nat, Prompt) -> Reply, now: int,
                 research: Fields -> Outcome, analyse: Fields -> Outcome, explore: Fields -> Outcome)
      requires apiKey != ""
      ensures Valid() && fresh(swarm) && WiredWorkers(researcher, analyst, explorer, research, analyse, explore)
      ensures swarm.messageBus == [] && swarm.executionLog == []
      ensures this.apiKey == apiKey && this.conversationId == conversationId && this.generate == generate
      ensures this.now == now && lastApiCall == 0 && calls == 0 && sleeps == [] && Clock()
    {
      var m, r, a, e := Wire(research, analyse, explore);
      this.apiKey := apiKey;
      swarm := m;
      this.conversationId := conversationId;
      this.generate := generate;
      researcher := r;
      analyst := a;
      explorer := e;
      this.now := now;
      lastApiCall := 0;
      calls := 0;
      sleeps := [];
      epoch := now;
      waited := 0;
      slept := 0;
    }

    /** Time passing outside the manager. */
    method Elapse(ms: nat)
      requires Clock()
      modifies this`now, this`waited
      ensures Clock() && now == old(now) + ms
    {
      now := now + ms;
      waited := waited + ms;
    }

    /** `time.sleep`. */
    method Sleep(ms: int)
      requires Clock()
      modifies this`now, this`sleeps, this`slept
      ensures Clock() && now == old(now) + ms && sleeps == old(sleeps) + [ms] && slept == old(slept) + ms
    {
      now := now + ms;
      slept := slept + ms;
      sleeps := sleeps + [ms];
    }

    /**
      The wait before the first attempt: sleep out what is left of the minimum gap, so
      that the attempt comes at least 1.5 s after the previous call.
    */
    method WaitForGap()
      requires Clock()
      modifies this`now, this`sleeps, this`slept
      ensures Clock() && sleeps == old(sleeps) + GapSleep(old(now) - lastApiCall)
      ensures now >= lastApiCall + MinGapMs
    {
      var elapsed := now - lastApiCall;
      if elapsed < MinGapMs {
        Sleep(MinGapMs - elapsed);
      }
    }

    /** The attempts of one call to the model with `prompt`, its calls numbered from `base`. */
    ghost function ModelRun(prompt: Prompt, base: nat): Retry {
      RetryFrom(RepliesOf(generate, base, prompt), 0)
    }

    /** The sleeps of that call, made `elapsed` ms after the previous one: the gap, then the back-offs. */
    ghost function ModelSleeps(prompt: Prompt, base: nat, elapsed: int): seq<int> {
      GapSleep(elapsed) + ModelRun(prompt, base).backoff
    }

    /** One `_gemini_call_with_retry` with `prompt` since the previous state: its calls, its sleeps, and `_last_api_call` reset to now. */
    twostate predicate CalledModel(prompt: Prompt)
      reads this
    {
      && calls == old(calls) + ModelRun(prompt, old(calls)).attempts
      && sleeps == old(sleeps) + ModelSleeps(prompt, old(calls), old(now) - old(lastApiCall))
      && lastApiCall == now
    }

    /** No call to the model and no sleep since the previous state. */
    twostate predicate ClockKept()
      reads this
    {
      now == old(now) && lastApiCall == old(lastApiCall) && calls == old(calls) && sleeps == old(sleeps) && slept == old(slept)
    }

    /**
      `_gemini_call_with_retry`: wait out the minimum gap, then call the model at most three
      times, backing off only after rate limits; each attempt resets `_last_api_call`.
    */
    method CallWithRetry(prompt: Prompt) returns (r: CallResult)
      requires Clock()
      modifies this`now, this`lastApiCall, this`calls, this`sleeps, this`slept
      ensures Clock()
      ensures r == ModelRun(prompt, old(calls)).result
      ensures CalledModel(prompt)
    {
      WaitForGap();
      r := Attempts(prompt);
      assert sleeps == old(sleeps) + (GapSleep(old(now) - old(lastApiCall)) + ModelRun(prompt, old(calls)).backoff);
    }

    /**
      The attempts of `_gemini_call_with_retry` once the gap is waited out: the model's
      calls, the back-offs after rate limits, and `_last_api_call` reset at the last attempt.
    */
    method Attempts(prompt: Prompt) returns (r: CallResult)
      requires Clock()
      modifies this`now, this`lastApiCall, this`calls, this`sleeps, this`slept
      ensures Clock() && lastApiCall == now
      ensures r == ModelRun(prompt, old(calls)).result
      ensures calls == old(calls) + ModelRun(prompt, old(calls)).attempts
      ensures sleeps == old(sleeps) + ModelRun(prompt, old(calls)).backoff
    {
      ghost var replies := RepliesOf(generate, calls, prompt);
      var attempt: nat := 0;
      while true
        invariant attempt < MaxRetries
        invariant forall k :: 0 <= k < attempt ==> replies[k].Fails? && IsRateLimit(replies[k].error)
        invariant calls == old(calls) + attempt
        invariant Clock() && sleeps == old(sleeps) + Backoffs(attempt)
        decreases MaxRetries - attempt
      {
        lastApiCall := now;
        var answer := generate(calls, prompt);
        assert answer == replies[attempt];
        calls := calls + 1;
        match answer
        case Replied(s) =>
          r := Answered(s);
          assert Clock() && lastApiCall == now;
          break;
        case Fails(e) =>
          if !(IsRateLimit(e) && attempt < MaxRetries - 1) {
            r := Failed(e);
            assert Clock() && lastApiCall == now;
            break;
          }
          var delay := BaseDelayMs * Pow2(attempt);
          assert Backoffs(attempt + 1) == Backoffs(attempt) + [delay];
          Sleep(delay);
          attempt := attempt + 1;
      }
      RetrySkip(replies, attempt);
      assert RetryFrom(replies, attempt) == Retry(r, attempt + 1, []);
    }

    /** `detect_intent`'s decision when the model's calls are numbered from `base`. */
    ghost function Detected(message: string, base: nat): Detection {
      Detect(message, RepliesOf(generate, base, Classify(message)))
    }

    /** `detect_intent`: the local stages, then the model; the model is called only when they decide nothing. */
    method DetectIntent(message: string) returns (intent: Intent)
      requires Valid() && Clock()
      modifies this`now, this`lastApiCall, this`calls, this`sleeps, this`slept
      ensures Valid() && Clock() && swarm.WorkerSet() == old(swarm.WorkerSet())
      ensures intent == Detected(message, old(calls)).intent
      ensures calls == old(calls) + Detected(message, old(calls)).calls
      ensures LocalIntent(message).Some? ==> ClockKept()
      ensures LocalIntent(message).None? ==> CalledModel(Classify(message))
    {
      var lower := Lower(message);
      if PathOverride(lower) {
        return ProjectContext;
      }
      var local := FirstKeywordIntent(IntentKeywords, lower);
      if local.Some? {
        return local.value;
      }
      var reply := CallWithRetry(Classify(message));
      match reply
      case Answered(s) => intent := IntentFromReply(s);
      case Failed(_) => intent := GeneralQa;
    }

    /**
      What answering a message of intent `i` yields, as the answer and the execution log
      that follows `before`: a routed intent's worker result summary (or the intent's
      default) with the dispatch logged, or else the model's answer to the calls numbered
      from `base`, with nothing logged.
    */
    ghost function Response(message: string, i: Intent, timestamp: string, base: nat, before: seq<ExecutionRecord>,
                            registry: Dict<string, string>, roster: Roster): (string, seq<ExecutionRecord>)
    {
      match RouteFor(i)
      case Some(route) =>
        var ctx := InjectContext(message, i, conversationId, timestamp);
        (SummaryOr(DispatchResult(registry, roster, route.worker, ctx), route.default),
         before + DispatchLog(registry, roster, route.worker, ctx))
      case None =>
        (GeneralAnswer(RepliesOf(generate, base, Ask(message))), before)
    }

    /**
      What `process_message` has done once it answers `answer`, given the state before the
      intent was detected: `start` calls made, the sleeps `sleeps0`, `elapsed` ms since the
      previous call and the execution log `before`. The intent is the detected one; the answer
      and the log are its `Response`; and when the local stages decided nothing, the calls and
      sleeps are the classification's, followed by the direct question's when the intent is
      not routed, with `_last_api_call` reset to now.
    */
    ghost predicate Handled(message: string, intent: Intent, timestamp: string, answer: string,
                            start: nat, sleeps0: seq<int>, elapsed: int, before: seq<ExecutionRecord>)
      reads this, swarm, swarm.SwarmSet()
    {
      var mid := start + Detected(message, start).calls;
      && intent == Detected(message, start).intent
      && (answer, swarm.executionLog) == Response(message, intent, timestamp, mid, before, swarm.workerRegistry, swarm.Tables())
      && (LocalIntent(message).None? ==>
            && lastApiCall == now
            && if RouteFor(intent).Some? then
                 calls == mid && sleeps == sleeps0 + ModelSleeps(Classify(message), start, elapsed)
               else
                 && calls == mid + ModelRun(Ask(message), mid).attempts
                 && sleeps == sleeps0 + ModelSleeps(Classify(message), start, elapsed) + ModelSleeps(Ask(message), mid, 0))
    }

    /**
      The routed branch of `process_message`: dispatch the injected context and take the
      summary. `start`, `sleeps0` and `elapsed` are the call count, the sleeps and the time
      since the previous call as they were before the intent was detected; nothing here
      touches the clock.
    */
    method AnswerByWorker(message: string, intent: Intent, timestamp: string, runId: string,
                   ghost start: nat, ghost sleeps0: seq<int>, ghost elapsed: int, ghost before: seq<ExecutionRecord>,
                   ghost workers: set<Worker>)
      returns (answer: string)
      requires Valid() && Clock() && before == swarm.executionLog
      requires intent == Detected(message, start).intent && calls == start + Detected(message, start).calls
      requires LocalIntent(message).None? ==>
        sleeps == sleeps0 + ModelSleeps(Classify(message), start, elapsed) && lastApiCall == now
      requires RouteFor(intent).Some?
      modifies swarm`executionLog, swarm.WorkerSet()
      ensures Valid() && Clock()
      ensures Handled(message, intent, timestamp, answer, start, sleeps0, elapsed, before)
      ensures LocalIntent(message).Some? ==> ClockKept()
      ensures swarm.WorkerSet() == old(swarm.WorkerSet())
      ensures forall w :: w in workers ==>
        Stepped(w, RouteTarget(intent, swarm.workerRegistry, swarm.Tables()), InjectContext(message, intent, conversationId, timestamp), runId)
    {
      var ctx := InjectContext(message, intent, conversationId, timestamp);
      var route := RouteFor(intent).value;
      swarm.TargetWithin(route.worker);
      var result := swarm.Dispatch(route.worker, ctx, runId, workers);
      answer := SummaryOr(result, route.default);
    }

    /**
      The general-question branch of `process_message`: the model's text, or a message for
      its error; no worker runs and nothing is logged.
    */
    method AnswerByModel(message: string, intent: Intent, timestamp: string, runId: string,
                   ghost start: nat, ghost sleeps0: seq<int>, ghost elapsed: int, ghost before: seq<ExecutionRecord>,
                   ghost workers: set<Worker>)
      returns (answer: string)
      requires Valid() && Clock() && before == swarm.executionLog
      requires intent == Detected(message, start).intent && calls == start + Detected(message, start).calls
      requires LocalIntent(message).None? ==>
        sleeps == sleeps0 + ModelSleeps(Classify(message), start, elapsed) && lastApiCall == now
      requires RouteFor(intent).None?
      modifies this`now, this`lastApiCall, this`calls, this`sleeps, this`slept
      ensures Valid() && Clock()
      ensures Handled(message, intent, timestamp, answer, start, sleeps0, elapsed, before)
      ensures LocalIntent(message).Some? ==> ClockKept()
      ensures swarm.WorkerSet() == old(swarm.WorkerSet())
      ensures forall w :: w in workers ==>
        Stepped(w, RouteTarget(intent, swarm.workerRegistry, swarm.Tables()), InjectContext(message, intent, conversationId, timestamp), runId)
    {
      assert LocalIntent(message).None?;
      ghost var mid, heard := calls, sleeps;
      var reply := AskModel(message, mid, heard);
      answer := AnswerOf(reply);
      forall w | w in workers
        ensures Stepped(w, None, InjectContext(message, intent, conversationId, timestamp), runId)
      {
      }
    }

    /** The direct question to the model, asked right after classification (so no gap is left to wait). */
    method AskModel(message: string, ghost mid: nat, ghost before: seq<int>) returns (r: CallResult)
      requires Clock() && lastApiCall == now && calls == mid && sleeps == before
      modifies this`now, this`lastApiCall, this`calls, this`sleeps, this`slept
      ensures Clock() && lastApiCall == now
      ensures r == ModelRun(Ask(message), mid).result
      ensures calls == mid + ModelRun(Ask(message), mid).attempts
      ensures sleeps == before + ModelSleeps(Ask(message), mid, 0)
    {
      r := CallWithRetry(Ask(message));
    }

    /** `process_message` once `detect_intent` has decided `intent`: route it, or ask the model directly. */
    method Respond(message: string, intent: Intent, timestamp: string, runId: string,
                   ghost start: nat, ghost sleeps0: seq<int>, ghost elapsed: int, ghost before: seq<ExecutionRecord>,
                   ghost workers: set<Worker>)
      returns (answer: string)
      requires Valid() && Clock() && before == swarm.executionLog
      requires intent == Detected(message, start).intent && calls == start + Detected(message, start).calls
      requires LocalIntent(message).None? ==>
        sleeps == sleeps0 + ModelSleeps(Classify(message), start, elapsed) && lastApiCall == now
      modifies this`now, this`lastApiCall, this`calls, this`sleeps, this`slept, swarm`executionLog, swarm.WorkerSet()
      ensures Valid() && Clock()
      ensures Handled(message, intent, timestamp, answer, start, sleeps0, elapsed, before)
      ensures LocalIntent(message).Some? ==> ClockKept()
      ensures swarm.WorkerSet() == old(swarm.WorkerSet())
      ensures forall w :: w in workers ==>
        SteppedFrom(w, old(w.statusLog), old(w.status), old(w.runId),
                    RouteTarget(intent, swarm.workerRegistry, swarm.Tables()), InjectContext(message, intent, conversationId, timestamp), runId)
    {
      if RouteFor(intent).Some? {
        answer := AnswerByWorker(message, intent, timestamp, runId, start, sleeps0, elapsed, before, workers);
      } else {
        answer := AnswerByModel(message, intent, timestamp, runId, start, sleeps0, elapsed, before, workers);
      }
    }

    /**
      `process_message`: a routed intent is dispatched to its worker with the injected
      context and answered with the result's summary or the intent's default; a general
      question goes to the model and every failure becomes a message.
    */
    method ProcessMessage(message: string, timestamp: string, runId: string) returns (answer: string, ghost intent: Intent)
      requires Valid() && Clock()
      modifies this`now, this`lastApiCall, this`calls, this`sleeps, this`slept, swarm`executionLog, swarm.WorkerSet()
      ensures Valid() && Clock()
      ensures Handled(message, intent, timestamp, answer, old(calls), old(sleeps), old(now) - old(lastApiCall), old(swarm.executionLog))
      ensures LocalIntent(message).Some? ==> ClockKept()
      ensures forall w :: w in swarm.WorkerSet() ==>
        SteppedFrom(w, old(w.statusLog), old(w.status), old(w.runId),
                    RouteTarget(intent, swarm.workerRegistry, swarm.Tables()), InjectContext(message, intent, conversationId, timestamp), runId)
    {
      var detected := DetectIntent(message);
      intent := detected;
      answer := Respond(message, detected, timestamp, runId, old(calls), old(sleeps), old(now) - old(lastApiCall),
                        old(swarm.executionLog), swarm.WorkerSet());
    }
  }

  function RepliesOf(generate: (nat, Prompt) -> Reply, base: nat, prompt: Prompt): (rs: seq<Reply>)
    ensures |rs| == MaxRetries
  {
    [generate(base, prompt), generate(base + 1, prompt), generate(base + 2, prompt)]
  }

  /** `ConversationManager(api_key)`: `None` stands for the `ValueError` raised when no key is set. */
  method NewConversationManager(apiKey: string, env: Option<string>, conversationId: string,
                                generate: (nat, Prompt) -> Reply, now: int,
                                research: Fields -> Outcome, analyse: Fields -> Outcome, explore: Fields -> Outcome)
    returns (r: Option<ConversationManager>)
    ensures r.None? <==> ResolveApiKey(apiKey, env).None?
    ensures r.Some? ==> fresh(r.value) && r.value.Valid() && r.value.apiKey == ResolveApiKey(apiKey, env).value
    ensures r.Some? ==> r.value.conversationId == conversationId
  {
    var key := ResolveApiKey(apiKey, env);
    if key.None? {
      return None;
    }
    var m := new ConversationManager(key.value, conversationId, generate, now, research, analyse, explore);
    return Some(m);
  }
}
