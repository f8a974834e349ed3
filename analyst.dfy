/**
  The paper analyst: turns a research query into arXiv search terms, reads the entries of
  the Atom feed the search returns, and renders them as a Markdown summary.

  The HTTP request and the XML parsing are an oracle from the request URL to a
  `Response`; `urllib.parse.quote` is a parameter. Persisting the papers and the audit
  log swallow their own errors and leave the result unchanged, so they are left out.
*/
module Analyst {
  import opened Wrappers
  import opened Dicts
  import opened Text
  import opened MultiSwarm

  // ---------------------------------------------------------------------------
  // Search terms
  // ---------------------------------------------------------------------------

  const Stopwords: set<string> := {
    "find", "search", "papers", "paper", "on", "about", "the", "a", "an",
    "for", "in", "of", "to", "and", "or", "with", "by", "from", "recent",
    "latest", "new", "tell", "me", "show", "get", "what", "is", "are"
  }

  /** A lowercased token worth searching for: not a stopword and longer than one character. */
  predicate IsSearchWord(w: string) {
    w !in Stopwords && |w| > 1
  }

  /** The tokens that are search words, in their original order. */
  function Kept(ws: seq<string>): (r: seq<string>)
    ensures |r| <= |ws|
    ensures forall w :: w in r <==> w in ws && IsSearchWord(w)
  {
    if ws == [] then []
    else (if IsSearchWord(ws[0]) then [ws[0]] else []) + Kept(ws[1..])
  }

  /** Filtering a concatenation filters each part: the kept tokens keep their order. */
  lemma {:induction false} KeptAppend(a: seq<string>, b: seq<string>)
    ensures Kept(a + b) == Kept(a) + Kept(b)
  {
    if a == [] {
      assert a + b == b;
    } else {
      assert (a + b)[0] == a[0] && (a + b)[1..] == a[1..] + b;
      KeptAppend(a[1..], b);
      var h := if IsSearchWord(a[0]) then [a[0]] else [];
      assert Kept(a + b) == h + (Kept(a[1..]) + Kept(b));
      assert Kept(a) == h + Kept(a[1..]);
    }
  }

  /** Tokens that are all search words are kept as they are. */
  lemma {:induction false} KeptAll(ws: seq<string>)
    requires forall i :: 0 <= i < |ws| ==> IsSearchWord(ws[i])
    ensures Kept(ws) == ws
  {
    if ws != [] {
      KeptAll(ws[1..]);
    }
  }

  /** The words searched for: the kept tokens of `query.lower().split()`, or else its first three. */
  function SearchWords(query: string): seq<string> {
    var raw := Words(Lower(query));
    var kept := Kept(raw);
    if kept != [] then kept else Prefix(raw, 3)
  }

  /** At most five of the search words. */
  function Terms(query: string): (r: seq<string>)
    ensures |r| <= 5
  {
    Prefix(SearchWords(query), 5)
  }

  /** The terms are the first five kept tokens; only when none is kept, the first three raw ones. */
  lemma TermsChoice(query: string)
    ensures var raw := Words(Lower(query));
      && (Kept(raw) != [] ==> Terms(query) == Prefix(Kept(raw), 5))
      && (Kept(raw) == [] ==> Terms(query) == Prefix(raw, 3))
    ensures forall t :: t in Terms(query) && Kept(Words(Lower(query))) != [] ==> IsSearchWord(t)
  {
  }

  /** One search part per term: "all:" and the quoted term. */
  function Parts(terms: seq<string>, quote: string -> string): (r: seq<string>)
    ensures |r| == |terms|
    ensures forall i :: 0 <= i < |terms| ==> r[i] == "all:" + quote(terms[i])
  {
    seq(|terms|, i requires 0 <= i < |terms| => "all:" + quote(terms[i]))
  }

  /** The `search_query` parameter: the parts joined with "+AND+". */
  function SearchQuery(query: string, quote: string -> string): (q: string)
    ensures q == "" <==> Terms(query) == []
    ensures Terms(query) != [] ==> |q| >= 4 && q[..4] == "all:"
  {
    var parts := Parts(Terms(query), quote);
    if |parts| <= 1 then Join(parts, "+AND+")
    else
      assert Join(parts, "+AND+") == parts[0] + ("+AND+" + Join(parts[1..], "+AND+"));
      Join(parts, "+AND+")
  }

  const ArxivApi := "https://export.arxiv.org/api/query"

  /** The request URL for a query and the `max_papers` value as the task gives it. */
  function SearchUrl(query: string, maxPapers: string, quote: string -> string): string {
    ArxivApi + "?search_query=" + SearchQuery(query, quote)
    + "&start=0&max_results=" + maxPapers + "&sortBy=relevance&sortOrder=descending"
  }

  /** Each further term adds "+AND+all:" and the quoted term. */
  lemma {:induction false} JoinParts(terms: seq<string>, quote: string -> string, t: string)
    requires terms != []
    ensures Join(Parts(terms + [t], quote), "+AND+")
         == Join(Parts(terms, quote), "+AND+") + "+AND+" + "all:" + quote(t)
    decreases |terms|
  {
    var ps := Parts(terms + [t], quote);
    if |terms| == 1 {
      assert ps == [ps[0], ps[1]];
      assert ps[1..] == ["all:" + quote(t)];
    } else {
      assert ps[1..] == Parts(terms[1..] + [t], quote);
      assert Parts(terms, quote)[1..] == Parts(terms[1..], quote);
      JoinParts(terms[1..], quote, t);
    }
  }

  lemma WordsExample()
    ensures Words("the a") == ["the", "a"]
  {
    WordsAfter("the", " a");
    assert "the a" == "the" + " a";
    assert Words(" a") == Words("a");
    WordsAfter("a", "");
    assert "a" + "" == "a";
  }

  /** A query whose words are all stopwords falls back to them: "The a" searches "all:the+AND+all:a". */
  lemma FallbackExample(quote: string -> string)
    requires quote("the") == "the" && quote("a") == "a"
    ensures SearchQuery("The a", quote) == "all:the" + "+AND+" + "all:a"
  {
    TermsExample();
    JoinExample(Terms("The a"), quote);
  }

  lemma JoinExample(ts: seq<string>, quote: string -> string)
    requires ts == ["the", "a"]
    requires quote("the") == "the" && quote("a") == "a"
    ensures Join(Parts(ts, quote), "+AND+") == "all:the" + "+AND+" + "all:a"
  {
    var ps := Parts(ts, quote);
    assert ps[0] == "all:the" && ps[1] == "all:a";
    assert ps[1..] == ["all:a"];
    assert Join(ps, "+AND+") == ps[0] + "+AND+" + Join(ps[1..], "+AND+");
  }

  lemma TermsExample()
    ensures Terms("The a") == ["the", "a"]
  {
    LowerExample();
    WordsExample();
    KeptExample();
    var raw := Words(Lower("The a"));
    assert raw == ["the", "a"];
    assert SearchWords("The a") == Prefix(raw, 3) == raw;
  }

  lemma LowerExample()
    ensures Lower("The a") == "the a"
  {
    assert LowerChar('T') == 't';
  }

  lemma KeptExample()
    ensures Kept(["the", "a"]) == []
  {
    assert "the" in Stopwords;
    assert !IsSearchWord("a");
    assert ["the", "a"][1..] == ["a"];
  }

  // ---------------------------------------------------------------------------
  // Feed entries
  // ---------------------------------------------------------------------------

  /**
    What the Atom parser finds in one `<entry>`: the text of each child element that is
    present; the `<name>` of each `<author>`; the `href` of a pdf `<link>` (absent link:
    `None`, link without `href`: `Some(None)`); the `term` of each primary category.
  */
  datatype Entry = Entry(
    title: Option<string>, summary: Option<string>, id: Option<string>, published: Option<string>,
    authorNames: seq<Option<string>>, pdfHref: Option<Option<string>>, categoryTerms: seq<Option<string>>)

  datatype Paper = Paper(
    title: string, abstractText: string, arxivId: string, authors: seq<string>,
    published: string, pdfUrl: string, categories: seq<string>)

  /** What the search request gives: a timeout, another failure, or the feed's entries. */
  datatype Response = TimedOut | Failed(error: string) | Feed(entries: seq<Entry>)

  /** The stripped names of the authors that have a `<name>`, in order. */
  function AuthorNames(ns: seq<Option<string>>): (r: seq<string>)
    ensures |r| <= |ns|
  {
    if ns == [] then []
    else (match ns[0] case Some(n) => [Strip(n)] case None => []) + AuthorNames(ns[1..])
  }

  /**
    One usable entry as a paper: title and abstract with their whitespace collapsed, the
    date cut to ten characters, and the id standing in for a missing PDF link.
  */
  function ToPaper(e: Entry): (p: Paper)
    requires e.title.Some? && e.id.Some?
    ensures p.arxivId == Strip(e.id.value) && |p.published| <= 10
    ensures |p.authors| <= |e.authorNames| && |p.categories| == |e.categoryTerms|
    ensures e.pdfHref.None? ==> p.pdfUrl == p.arxivId
  {
    var arxivId := Strip(e.id.value);
    Paper(
      Collapse(e.title.value),
      match e.summary case Some(t) => Collapse(t) case None => "",
      arxivId,
      AuthorNames(e.authorNames),
      Prefix(match e.published case Some(t) => Strip(t) case None => "", 10),
      match e.pdfHref case Some(h) => h.GetOr(arxivId) case None => arxivId,
      seq(|e.categoryTerms|, i requires 0 <= i < |e.categoryTerms| => e.categoryTerms[i].GetOr("")))
  }

  /** The papers of a feed: entries without a title or an id are skipped. */
  function Papers(es: seq<Entry>): (r: seq<Paper>)
    ensures |r| <= |es|
  {
    if es == [] then []
    else
      var e := es[0];
      (if e.title.Some? && e.id.Some? then [ToPaper(e)] else []) + Papers(es[1..])
  }

  /** A paper's title and abstract have their whitespace collapsed, and its date is at most ten characters. */
  lemma {:induction false} PapersNormalised(es: seq<Entry>)
    ensures forall p :: p in Papers(es) ==>
      Collapse(p.title) == p.title && Collapse(p.abstractText) == p.abstractText && |p.published| <= 10
  {
    if es != [] {
      PapersNormalised(es[1..]);
      var e := es[0];
      if e.title.Some? && e.id.Some? {
        CollapseIdempotent(e.title.value);
        match e.summary
        case Some(t) => CollapseIdempotent(t);
        case None => assert Collapse("") == "";
      }
    }
  }

  /** The papers come from the entries in feed order; an entry lacking a title or an id gives none. */
  lemma {:induction false} PapersAppend(a: seq<Entry>, b: seq<Entry>)
    ensures Papers(a + b) == Papers(a) + Papers(b)
  {
    if a == [] {
      assert a + b == b;
    } else {
      assert (a + b)[0] == a[0] && (a + b)[1..] == a[1..] + b;
      var head := if a[0].title.Some? && a[0].id.Some? then [ToPaper(a[0])] else [];
      assert Papers(a + b) == head + Papers(a[1..] + b);
      PapersAppend(a[1..], b);
    }
  }

  // ---------------------------------------------------------------------------
  // Summary
  // ---------------------------------------------------------------------------

  /** The first three authors, then " et al. (n authors)" when there are more than three. */
  function AuthorsText(authors: seq<string>): string {
    Join(Prefix(authors, 3), ", ") + EtAl(|authors|)
  }

  /** The note after the listed authors. */
  function EtAl(n: nat): string {
    if n > 3 then " et al. (" + NatToString(n) + " authors)" else ""
  }

  /** Up to three authors are all listed; with more, only the first three and the count. */
  lemma AuthorsShown(authors: seq<string>)
    ensures |authors| <= 3 ==> AuthorsText(authors) == Join(authors, ", ")
    ensures |authors| > 3 ==> AuthorsText(authors) == Join(authors[..3], ", ") + EtAl(|authors|) && EtAl(|authors|) != ""
  {
    if |authors| <= 3 {
      assert EtAl(|authors|) == "";
      assert Join(authors, ", ") + "" == Join(authors, ", ");
    }
  }

  /** The abstract cut to 300 characters, with "..." only when something was cut. */
  function Clipped(text: string): (r: string)
    ensures |text| <= 300 ==> r == text
    ensures |text| > 300 ==> |r| == 303 && r[..300] == text[..300] && r[300..] == "..."
  {
    Prefix(text, 300) + if |text| > 300 then "..." else ""
  }

  /** `pdf_url.split('/')[-1]`: the last path segment. */
  function PdfName(url: string): (r: string)
    ensures '/' !in r
  {
    var pieces := Split(url, '/');
    pieces[|pieces| - 1]
  }

  /** The name shown for a PDF link is what follows its last '/'. */
  lemma PdfNameAfterSlash(a: string, b: string)
    requires '/' !in b
    ensures PdfName(a + "/" + b) == b
  {
    assert a + "/" + b == a + ['/'] + b;
    SplitAround(a, '/', b);
    SplitNoSep(b, '/');
  }

  /** The Markdown block for paper number `i`. */
  function Block(i: nat, p: Paper): string {
    "### " + NatToString(i) + ". " + p.title + "\n"
    + "**Authors:** " + AuthorsText(p.authors) + "\n"
    + "**Published:** " + p.published + "\n"
    + "**ArXiv:** [" + p.arxivId + "](" + p.arxivId + ")\n"
    + (if p.pdfUrl != "" then "**PDF:** [" + PdfName(p.pdfUrl) + "](" + p.pdfUrl + ")\n" else "")
    + "\n> " + Clipped(p.abstractText) + "\n\n"
    + "---\n\n"
  }

  /** One rendering per paper, numbered from `i`. */
  function Numbered(ps: seq<Paper>, i: nat, render: (nat, Paper) -> string): string {
    if ps == [] then "" else render(i, ps[0]) + Numbered(ps[1..], i + 1, render)
  }

  lemma {:induction false} NumberedAppend(a: seq<Paper>, b: seq<Paper>, i: nat, render: (nat, Paper) -> string)
    ensures Numbered(a + b, i, render) == Numbered(a, i, render) + Numbered(b, i + |a|, render)
  {
    if a == [] {
      assert a + b == b;
    } else {
      assert (a + b)[0] == a[0] && (a + b)[1..] == a[1..] + b;
      NumberedAppend(a[1..], b, i + 1, render);
    }
  }

  /** Paper `k` (counting from 0) is rendered with number `i + k`, between the others. */
  lemma NumberedAt(ps: seq<Paper>, i: nat, k: nat, render: (nat, Paper) -> string)
    requires k < |ps|
    ensures Numbered(ps, i, render)
         == Numbered(ps[..k], i, render) + render(i + k, ps[k]) + Numbered(ps[k + 1..], i + k + 1, render)
  {
    assert ps == ps[..k] + ([ps[k]] + ps[k + 1..]);
    NumberedAppend(ps[..k], [ps[k]] + ps[k + 1..], i, render);
    NumberedAppend([ps[k]], ps[k + 1..], i + k, render);
    assert Numbered([ps[k]], i + k, render) == render(i + k, ps[k]) + "";
  }

  /** "ğŸ“„" as the file spells it: the UTF-8 bytes of a page emoji read back as CP-1254. */
  const PageMark := "\U{11F}\U{178}\U{201C}\U{201E}"

  function Header(query: string, count: nat): string {
    "## " + PageMark + " ArXiv Papers: \"" + query + "\"\n\n"
    + "Found **" + NatToString(count) + "** relevant papers:\n\n"
  }

  /** `_generate_summary`: the header, then one block per paper numbered from 1. */
  function Summary(query: string, papers: seq<Paper>): string {
    Header(query, |papers|) + Numbered(papers, 1, Block)
  }

  /** Appends one rendering after another, as the loop of `_generate_summary` does. */
  method AppendNumbered(prefix: string, papers: seq<Paper>, render: (nat, Paper) -> string) returns (s: string)
    ensures s == prefix + Numbered(papers, 1, render)
  {
    s := prefix;
    var k := 0;
    while k < |papers|
      invariant 0 <= k <= |papers|
      invariant s == prefix + Numbered(papers[..k], 1, render)
    {
      var b := render(k + 1, papers[k]);
      NumberedAppend(papers[..k], [papers[k]], 1, render);
      assert papers[..k + 1] == papers[..k] + [papers[k]];
      assert Numbered([papers[k]], 1 + k, render) == b + "";
      s := s + b;
      k := k + 1;
    }
    assert papers[..k] == papers;
  }

  /** `_generate_summary`. */
  method GenerateSummary(query: string, papers: seq<Paper>) returns (s: string)
    ensures s == Summary(query, papers)
  {
    s := AppendNumbered(Header(query, |papers|), papers, Block);
  }

  // ---------------------------------------------------------------------------
  // execute
  // ---------------------------------------------------------------------------

  /** `task.get("query", user_message)`: a present "query" wins even when it is empty. */
  function QueryOf(task: Fields): string {
    match Get(task, "query")
    case Some(q) => q
    case None => Get(task, "user_message").GetOr("")
  }

  /** `task.get("max_papers", 5)` as it is written into the URL. */
  function MaxPapersOf(task: Fields): string {
    Get(task, "max_papers").GetOr("5")
  }

  const NoQuery := "Please provide a research topic or query."

  function NoPapers(query: string): string {
    "No papers found for: '" + query + "'"
  }

  /** `execute`, with `arxiv` answering the search request. */
  function Execute(task: Fields, arxiv: string -> Response, quote: string -> string): (r: Fields)
    ensures QueryOf(task) == "" ==> r == ErrorResult(NoQuery)
    ensures Get(r, "status") == Some("success") ==>
      QueryOf(task) != "" && arxiv(SearchUrl(QueryOf(task), MaxPapersOf(task), quote)).Feed?
  {
    var query := QueryOf(task);
    if query == "" then ErrorResult(NoQuery)
    else
      match arxiv(SearchUrl(query, MaxPapersOf(task), quote))
      case TimedOut => ErrorResult("ArXiv API timed out. Please try again.")
      case Failed(e) => ErrorResult("Failed to search papers: " + e)
      case Feed(entries) =>
        var papers := Papers(entries);
        if papers == [] then SuccessResult(NoPapers(query)) else SuccessResult(Summary(query, papers))
  }

  /** No query and an empty message, or an empty query, is refused before any request. */
  lemma NoQueryRefused(task: Fields, arxiv: string -> Response, quote: string -> string)
    requires Get(task, "query") == Some("")
          || (Get(task, "query").None? && Get(task, "user_message").GetOr("") == "")
    ensures Execute(task, arxiv, quote) == ErrorResult(NoQuery)
  {
  }

  /** The request is for the terms of the query and the task's `max_papers`. */
  lemma RequestFor(task: Fields, arxiv: string -> Response, quote: string -> string)
    requires QueryOf(task) != ""
    requires arxiv(SearchUrl(QueryOf(task), MaxPapersOf(task), quote)).Feed?
    ensures var papers := Papers(arxiv(SearchUrl(QueryOf(task), MaxPapersOf(task), quote)).entries);
      Execute(task, arxiv, quote)
        == SuccessResult(if papers == [] then NoPapers(QueryOf(task)) else Summary(QueryOf(task), papers))
  {
    var response := arxiv(SearchUrl(QueryOf(task), MaxPapersOf(task), quote));
    assert response == Feed(response.entries);
  }

  /** A feed none of whose entries has both a title and an id reports that nothing was found. */
  lemma {:induction false} NothingUsable(task: Fields, arxiv: string -> Response, quote: string -> string)
    requires QueryOf(task) != ""
    requires arxiv(SearchUrl(QueryOf(task), MaxPapersOf(task), quote)).Feed?
    requires forall e :: e in arxiv(SearchUrl(QueryOf(task), MaxPapersOf(task), quote)).entries ==> e.title.None? || e.id.None?
    ensures Execute(task, arxiv, quote) == SuccessResult(NoPapers(QueryOf(task)))
  {
    var es := arxiv(SearchUrl(QueryOf(task), MaxPapersOf(task), quote)).entries;
    NoneUsable(es);
  }

  lemma {:induction false} NoneUsable(es: seq<Entry>)
    requires forall e :: e in es ==> e.title.None? || e.id.None?
    ensures Papers(es) == []
  {
    if es != [] {
      NoneUsable(es[1..]);
    }
  }
}
