/**
  The daily digest: raw signals and the agents' intelligence rows of the last day are
  sorted into categories by source, each signal's item takes its summary, relevance and
  risk from the first matching intelligence row, and the categories are rendered as HTML
  sections in a fixed order. The database queries, the clock (the date string) and the
  style sheet are inputs.
*/
module DailyReport {
  import opened Wrappers
  import opened Dicts
  import opened Text

  /** A row of `raw_signals`: its `id`, `source` and `payload`. */
  datatype SignalRow = SignalRow(id: string, source: string, payload: Dict<string, string>)

  /** A row of `processed_intelligence`: `signal_id`, `agent_name` and `output_data`. */
  datatype IntelRow = IntelRow(signalId: string, agentName: string, output: Dict<string, string>)

  /**
    A report item. `summary`, `relevance` and `risk` are `None` where the first matching
    row's output lacks the key (Python's `None`, rendered "None").
  */
  datatype Item = Item(title: string, url: string, summary: Option<string>, relevance: Option<string>, risk: Option<string>)

  datatype Category = NewTopics | NewTrends | NewRepos | Updates | Blogs | Insights | Summary {
    function Name(): string {
      match this
      case NewTopics => "New Topics"
      case NewTrends => "New Trends"
      case NewRepos => "New Repos"
      case Updates => "Updates"
      case Blogs => "Blogs"
      case Insights => "Insights"
      case Summary => "Summary"
    }

    /** `cat_config`: the colour class and the icon of the section header. */
    function Color(): string {
      match this
      case NewTopics => "c-blue"
      case NewRepos => "c-red"
      case Updates => "c-yellow"
      case Insights => "c-green"
      case _ => "c-grey"
    }

    function Icon(): string {
      match this
      case NewTrends => "\U{1F4C8}"
      case NewTopics => "\U{1F426}"
      case NewRepos => "\U{1F4BB}"
      case Updates => "\U{1F917}"
      case Insights => "\U{1F4C4}"
      case Blogs => "\U{270D}\U{FE0F}"
      case Summary => "\U{1F4CB}"
    }
  }

  /**
    The category a signal is filed under, by its source: each known source has its own
    category, every other source is a summary, and no signal is a trend.
  */
  function CategoryOf(source: string): (c: Category)
    ensures c != NewTrends
    ensures c == NewRepos <==> source == "github"
    ensures c == Blogs <==> source == "medium"
    ensures c == Updates <==> source == "huggingface"
    ensures c == Insights <==> source == "arxiv"
    ensures c == NewTopics <==> source == "twitter"
    ensures c == Summary <==> source !in {"github", "medium", "huggingface", "arxiv", "twitter"}
  {
    if source == "github" then NewRepos
    else if source == "medium" then Blogs
    else if source == "huggingface" then Updates
    else if source == "arxiv" then Insights
    else if source == "twitter" then NewTopics
    else Summary
  }

  /** The intelligence rows about signal `sid`, in their original order. */
  function RowsFor(intel: seq<IntelRow>, sid: string): seq<IntelRow> {
    if intel == [] then []
    else
      var last := intel[|intel| - 1];
      RowsFor(intel[..|intel| - 1], sid) + (if last.signalId == sid then [last] else [])
  }

  /** The outputs of the trend-detection rows, in order: the "New Trends" entries. */
  function TrendOutputs(intel: seq<IntelRow>): seq<Dict<string, string>> {
    if intel == [] then []
    else
      var last := intel[|intel| - 1];
      TrendOutputs(intel[..|intel| - 1]) + (if last.agentName == "trend_detection" then [last.output] else [])
  }

  /**
    The loop over the intelligence rows: `intel_map` groups them by signal id, keeping
    their order, and every trend-detection output is injected into "New Trends".
  */
  method MapIntelligence(intel: seq<IntelRow>) returns (intelMap: Dict<string, seq<IntelRow>>, trends: seq<Dict<string, string>>)
    ensures forall sid :: Get(intelMap, sid).GetOr([]) == RowsFor(intel, sid)
    ensures trends == TrendOutputs(intel)
  {
    intelMap, trends := [], [];
    for i := 0 to |intel|
      invariant forall sid :: Get(intelMap, sid).GetOr([]) == RowsFor(intel[..i], sid)
      invariant trends == TrendOutputs(intel[..i])
    {
      var row := intel[i];
      assert intel[..i + 1][..i] == intel[..i] && intel[..i + 1][i] == row;
      var group := Get(intelMap, row.signalId).GetOr([]);
      forall sid ensures Get(Put(intelMap, row.signalId, group + [row]), sid).GetOr([]) == RowsFor(intel[..i + 1], sid) {
        GetPut(intelMap, row.signalId, group + [row], sid);
      }
      intelMap := Put(intelMap, row.signalId, group + [row]);
      if row.agentName == "trend_detection" {
        trends := trends + [row.output];
      }
    }
    assert intel[..|intel|] == intel;
  }

  /**
    `next(x['output_data'].get(key) for x in rows if x['agent_name'] == agent)`: `None`
    when no row is by that agent, otherwise the first such row's value for `key`.
  */
  function FirstOutput(rows: seq<IntelRow>, agent: string, key: string): Option<Option<string>> {
    if rows == [] then None
    else if rows[0].agentName == agent then Some(Get(rows[0].output, key))
    else FirstOutput(rows[1..], agent, key)
  }

  /** The first row by `agent` decides; without one there is nothing to take. */
  lemma {:induction false} FirstOutputSpec(rows: seq<IntelRow>, agent: string, key: string)
    ensures FirstOutput(rows, agent, key).None? <==> forall k :: 0 <= k < |rows| ==> rows[k].agentName != agent
    ensures FirstOutput(rows, agent, key).Some? ==>
      exists k :: 0 <= k < |rows| && rows[k].agentName == agent && FirstOutput(rows, agent, key).value == Get(rows[k].output, key)
        && forall j :: 0 <= j < k ==> rows[j].agentName != agent
  {
    if rows != [] && rows[0].agentName != agent {
      FirstOutputSpec(rows[1..], agent, key);
      assert forall k :: 1 <= k < |rows| ==> rows[k] == rows[1..][k - 1];
      if FirstOutput(rows, agent, key).Some? {
        var k :| 0 <= k < |rows[1..]| && rows[1..][k].agentName == agent
                 && FirstOutput(rows, agent, key).value == Get(rows[1..][k].output, key)
                 && forall j :: 0 <= j < k ==> rows[1..][j].agentName != agent;
        assert rows[k + 1] == rows[1..][k];
        assert forall j :: 0 <= j < k + 1 ==> rows[j].agentName != agent by {
          forall j | 0 <= j < k + 1 ensures rows[j].agentName != agent {
            if j > 0 { assert rows[j] == rows[1..][j - 1]; }
          }
        }
      }
    }
  }

  /**
    The item built for a signal from the intelligence rows about it: without a row by an
    agent, the item shows that agent's default; the payload supplies title and url.
  */
  function MakeItem(sig: SignalRow, rows: seq<IntelRow>): (item: Item)
    ensures (forall k :: 0 <= k < |rows| ==> rows[k].agentName != "summarization") ==> item.summary == Some("No summary.")
    ensures (forall k :: 0 <= k < |rows| ==> rows[k].agentName != "relevance") ==> item.relevance == Some("0")
    ensures (forall k :: 0 <= k < |rows| ==> rows[k].agentName != "risk_analysis") ==> item.risk == Some("UNKNOWN")
    ensures "title" !in Keys(sig.payload) ==> item.title == "Untitled"
    ensures "url" !in Keys(sig.payload) ==> item.url == "#"
  {
    FirstOutputSpec(rows, "summarization", "summary_text");
    FirstOutputSpec(rows, "relevance", "score");
    FirstOutputSpec(rows, "risk_analysis", "risk_level");
    Item(Get(sig.payload, "title").GetOr("Untitled"),
         Get(sig.payload, "url").GetOr("#"),
         FirstOutput(rows, "summarization", "summary_text").GetOr(Some("No summary.")),
         FirstOutput(rows, "relevance", "score").GetOr(Some("0")),
         FirstOutput(rows, "risk_analysis", "risk_level").GetOr(Some("UNKNOWN")))
  }

  /** The items filed under `c`, in signal order. */
  function Bucket(signals: seq<SignalRow>, intel: seq<IntelRow>, c: Category): seq<Item> {
    if signals == [] then []
    else
      var last := signals[|signals| - 1];
      Bucket(signals[..|signals| - 1], intel, c)
        + (if CategoryOf(last.source) == c then [MakeItem(last, RowsFor(intel, last.id))] else [])
  }

  /** The number of items filed under the six signal categories. */
  function Filed(signals: seq<SignalRow>, intel: seq<IntelRow>): nat {
    |Bucket(signals, intel, NewTopics)| + |Bucket(signals, intel, NewRepos)| + |Bucket(signals, intel, Updates)|
      + |Bucket(signals, intel, Blogs)| + |Bucket(signals, intel, Insights)| + |Bucket(signals, intel, Summary)|
  }

  /** Every signal is filed exactly once, and never under "New Trends". */
  lemma {:induction false} EverySignalFiledOnce(signals: seq<SignalRow>, intel: seq<IntelRow>)
    ensures Filed(signals, intel) == |signals|
    ensures Bucket(signals, intel, NewTrends) == []
  {
    if signals != [] {
      EverySignalFiledOnce(signals[..|signals| - 1], intel);
    }
  }

  /** The categories: the trend outputs for "New Trends" and an item list for every category. */
  datatype Categories = Categories(trends: seq<Dict<string, string>>, items: map<Category, seq<Item>>)

  /** Every category has an item list. */
  predicate Complete(cats: Categories) {
    forall c: Category :: c in cats.items
  }

  const AllCategories: set<Category> := {NewTopics, NewTrends, NewRepos, Updates, Blogs, Insights, Summary}

  lemma AllCategoriesComplete(m: map<Category, seq<Item>>)
    requires m.Keys == AllCategories
    ensures forall c: Category :: c in m
  {
    forall c: Category ensures c in m {
      match c
      case NewTopics => case NewTrends => case NewRepos => case Updates =>
      case Blogs => case Insights => case Summary =>
    }
  }

  /**
    The categorisation of `generate_html_report`: the trend outputs, then each signal's
    item appended to its source's category.
  */
  method Categorize(signals: seq<SignalRow>, intel: seq<IntelRow>) returns (cats: Categories)
    ensures Complete(cats)
    ensures cats.trends == TrendOutputs(intel)
    ensures forall c :: cats.items[c] == Bucket(signals, intel, c)
  {
    var intelMap, trends := MapIntelligence(intel);
    var items: map<Category, seq<Item>> :=
      map[NewTopics := [], NewTrends := [], NewRepos := [], Updates := [], Blogs := [], Insights := [], Summary := []];
    AllCategoriesComplete(items);
    for i := 0 to |signals|
      invariant forall c: Category :: c in items
      invariant forall c :: items[c] == Bucket(signals[..i], intel, c)
    {
      var s := signals[i];
      assert signals[..i + 1][..i] == signals[..i] && signals[..i + 1][i] == s;
      var item := MakeItem(s, Get(intelMap, s.id).GetOr([]));
      var cat := CategoryOf(s.source);
      items := items[cat := items[cat] + [item]];
    }
    assert signals[..|signals|] == signals;
    cats := Categories(trends, items);
  }

  /** `order`: the sections in the order they are rendered. */
  const Order: seq<Category> := [NewTrends, NewTopics, NewRepos, Updates, Insights, Blogs, Summary]

  /** The number of entries in a category. */
  function Count(cats: Categories, c: Category): nat {
    if c == NewTrends then |cats.trends| else |ItemsOf(cats, c)|
  }

  /** `categories.get(cat, [])` for an item category. */
  function ItemsOf(cats: Categories, c: Category): seq<Item> {
    if c in cats.items then cats.items[c] else []
  }

  /** The categories that get a section: those of `cs` with at least one entry, in order. */
  function Shown(cats: Categories, cs: seq<Category>): seq<Category>
  {
    if cs == [] then []
    else
      var last := cs[|cs| - 1];
      Shown(cats, cs[..|cs| - 1]) + (if Count(cats, last) > 0 then [last] else [])
  }

  /** The position of a category in `Order`. */
  function Rank(c: Category): nat {
    match c
    case NewTrends => 0
    case NewTopics => 1
    case NewRepos => 2
    case Updates => 3
    case Insights => 4
    case Blogs => 5
    case Summary => 6
  }

  /** `Order` lists every category once, at its rank. */
  lemma OrderRanks()
    ensures |Order| == 7
    ensures forall k :: 0 <= k < |Order| ==> Rank(Order[k]) == k
    ensures forall c: Category :: c in Order
  {
    forall c: Category ensures c in Order {
      assert Order[Rank(c)] == c;
    }
  }

  /** A section is shown exactly for the non-empty categories of `cs`. */
  lemma {:induction false} ShownMembers(cats: Categories, cs: seq<Category>, c: Category)
    ensures c in Shown(cats, cs) <==> c in cs && Count(cats, c) > 0
  {
    if cs != [] {
      var init := cs[..|cs| - 1];
      var last := cs[|cs| - 1];
      assert cs == init + [last];
      ShownMembers(cats, init, c);
    }
  }

  /** The shown sections keep the order of `cs`. */
  lemma {:induction false} ShownOrdered(cats: Categories, cs: seq<Category>)
    requires forall i, j :: 0 <= i < j < |cs| ==> Rank(cs[i]) < Rank(cs[j])
    ensures forall i, j :: 0 <= i < j < |Shown(cats, cs)| ==> Rank(Shown(cats, cs)[i]) < Rank(Shown(cats, cs)[j])
  {
    if cs != [] {
      var init := cs[..|cs| - 1];
      var last := cs[|cs| - 1];
      ShownOrdered(cats, init);
      var sh := Shown(cats, init);
      forall i | 0 <= i < |sh| ensures Rank(sh[i]) < Rank(last) {
        ShownMembers(cats, init, sh[i]);
        var k :| 0 <= k < |init| && init[k] == sh[i];
        assert init[k] == cs[k];
      }
    }
  }

  /** Sections appear in the fixed order New Trends, New Topics, New Repos, Updates, Insights, Blogs, Summary, and empty categories are omitted. */
  lemma SectionsInOrder(cats: Categories)
    ensures forall c :: c in Shown(cats, Order) <==> Count(cats, c) > 0
    ensures forall i, j :: 0 <= i < j < |Shown(cats, Order)| ==> Rank(Shown(cats, Order)[i]) < Rank(Shown(cats, Order)[j])
  {
    OrderRanks();
    forall c ensures c in Shown(cats, Order) <==> Count(cats, c) > 0 {
      ShownMembers(cats, Order, c);
    }
    ShownOrdered(cats, Order);
  }

  /** `n` spaces. */
  function Indent(n: nat): string {
    seq(n, _ => ' ')
  }

  /** The page head: the given style sheet, the title, the date and the greeting. */
  function Head(style: string, dateStr: string): string {
    "<!DOCTYPE html><html><head>" + style + "</head><body>\n"
    + Indent(8) + "<div class=\"container\">\n"
    + Indent(12) + "<div class=\"header\">\n"
    + Indent(16) + "<h1>DevPulseAI Daily Digest</h1>\n"
    + Indent(16) + "<p>" + dateStr + " \U{2022} Automated Intelligence</p>\n"
    + Indent(12) + "</div>\n"
    + Indent(12) + "<div class=\"greeting-box\">\n"
    + Indent(16) + "Hey Hill Patel, here is your daily digest!\n"
    + Indent(12) + "</div>\n"
    + Indent(8)
  }

  const Footer: string := "<div class=\"footer\">Generated by DevPulseAI v2 on Google Cloud Run</div></div></body></html>"

  /** The section header, with the number of entries. */
  function SectionHeader(c: Category, n: nat): string {
    "<div class=\"section\"><div class=\"section-title " + c.Color() + "\">" + c.Icon() + " " + c.Name()
    + " <span>" + NatToString(n) + " updates</span></div>"
  }

  /** The markup of a trend entry with the given name and growth rate. */
  function TrendMarkup(name: string, growth: string): string {
    "\n" + Indent(20) + "<div class=\"item\">\n"
    + Indent(24) + "<div style=\"font-size: 16px; color: #202124;\">" + name
    + " <span class=\"badge badge-growth\">" + growth + "</span></div>\n"
    + Indent(20) + "</div>"
  }

  /** The markup of a trend entry; a missing name or growth rate shows "Unknown" or "Stable". */
  function TrendHtml(t: Dict<string, string>): string {
    TrendMarkup(Get(t, "trend_name").GetOr("Unknown"), Get(t, "growth_rate").GetOr("Stable"))
  }

  /** How an f-string shows an optional value. */
  function Display(v: Option<string>): string {
    v.GetOr("None")
  }

  /** The risk badge: only for a risk of "HIGH". */
  function RiskBadge(item: Item): string {
    if item.risk == Some("HIGH") then "<span class=\"badge badge-risk\">RISK: " + Display(item.risk) + "</span>" else ""
  }

  /** The markup of an item. */
  function ItemHtml(item: Item): string {
    "\n" + Indent(20) + "<div class=\"item\">\n"
    + Indent(24) + "<a href=\"" + item.url + "\" class=\"item-title\">" + item.title + "</a>\n"
    + Indent(24) + "<div class=\"item-meta\">\n"
    + Indent(28) + "<span>Relevance: " + Display(item.relevance) + "</span>\n"
    + Indent(28) + RiskBadge(item) + "\n"
    + Indent(24) + "</div>\n"
    + Indent(24) + "<div class=\"item-summary\">" + Display(item.summary) + "</div>\n"
    + Indent(20) + "</div>\n"
    + Indent(20)
  }

  /** A risk badge is shown exactly for high-risk items, and then it names the risk. */
  lemma RiskBadgeOnlyHigh(item: Item)
    ensures RiskBadge(item) != "" <==> item.risk == Some("HIGH")
    ensures RiskBadge(item) != "" ==> Contains(RiskBadge(item), "RISK: HIGH")
  {
    if item.risk == Some("HIGH") {
      var b := RiskBadge(item);
      assert OccursAt(b, "RISK: HIGH", 31);
    }
  }

  /** A trend entry shows its own name and growth rate, or "Unknown" and "Stable" where they are missing. */
  lemma TrendDefaults(t: Dict<string, string>, name: string, growth: string)
    requires Get(t, "trend_name") == Some(name) || ("trend_name" !in Keys(t) && name == "Unknown")
    requires Get(t, "growth_rate") == Some(growth) || ("growth_rate" !in Keys(t) && growth == "Stable")
    ensures TrendHtml(t) == TrendMarkup(name, growth)
  {
  }

  /** The concatenation of the markup of the given entries. */
  function TrendsHtml(ts: seq<Dict<string, string>>): string {
    if ts == [] then "" else TrendsHtml(ts[..|ts| - 1]) + TrendHtml(ts[|ts| - 1])
  }

  function ItemsHtml(items: seq<Item>): string {
    if items == [] then "" else ItemsHtml(items[..|items| - 1]) + ItemHtml(items[|items| - 1])
  }

  /** A whole section: its header with the entry count, its entries, and the closing tag. */
  function SectionHtml(cats: Categories, c: Category): string
  {
    SectionHeader(c, Count(cats, c))
    + (if c == NewTrends then TrendsHtml(cats.trends) else ItemsHtml(ItemsOf(cats, c)))
    + "</div>"
  }

  function SectionsHtml(cats: Categories, cs: seq<Category>): string
  {
    if cs == [] then "" else SectionsHtml(cats, cs[..|cs| - 1]) + SectionHtml(cats, cs[|cs| - 1])
  }

  /** What the loop over `order` appends for the categories `cs`. */
  function Render(cats: Categories, cs: seq<Category>): string
  {
    if cs == [] then "" else Render(cats, cs[..|cs| - 1]) + Part(cats, cs[|cs| - 1])
  }

  /** What one iteration appends: nothing for an empty category, otherwise its section. */
  function Part(cats: Categories, c: Category): string {
    if Count(cats, c) > 0 then SectionHtml(cats, c) else ""
  }

  /** Rendering the sections of `cs` skips the empty ones: only the shown sections contribute. */
  lemma {:induction false} SectionsSkipEmpty(cats: Categories, cs: seq<Category>)
    ensures Render(cats, cs) == SectionsHtml(cats, Shown(cats, cs))
  {
    if cs != [] {
      var init := cs[..|cs| - 1];
      var last := cs[|cs| - 1];
      SectionsSkipEmpty(cats, init);
      var sh := Shown(cats, init);
      if Count(cats, last) > 0 {
        var s2 := sh + [last];
        assert Shown(cats, cs) == s2;
        assert s2[..|sh|] == sh && s2[|s2| - 1] == last;
        assert SectionsHtml(cats, s2) == SectionsHtml(cats, sh) + SectionHtml(cats, last);
      } else {
        assert Shown(cats, cs) == sh;
      }
    }
  }

  /** The loop over a section's trend entries. */
  method RenderTrends(ts: seq<Dict<string, string>>) returns (html: string)
    ensures html == TrendsHtml(ts)
  {
    html := "";
    for j := 0 to |ts|
      invariant html == TrendsHtml(ts[..j])
    {
      assert ts[..j + 1][..j] == ts[..j];
      html := html + TrendHtml(ts[j]);
    }
    assert ts[..|ts|] == ts;
  }

  /** The loop over a section's items. */
  method RenderItems(items: seq<Item>) returns (html: string)
    ensures html == ItemsHtml(items)
  {
    html := "";
    for j := 0 to |items|
      invariant html == ItemsHtml(items[..j])
    {
      assert items[..j + 1][..j] == items[..j];
      html := html + ItemHtml(items[j]);
    }
    assert items[..|items|] == items;
  }

  /** One section, as the loop body of `_render_html` appends it. */
  method RenderSection(cats: Categories, cat: Category) returns (html: string)
    ensures html == SectionHtml(cats, cat)
  {
    var entries;
    if cat == NewTrends {
      entries := RenderTrends(cats.trends);
    } else {
      entries := RenderItems(ItemsOf(cats, cat));
    }
    html := SectionHeader(cat, Count(cats, cat)) + entries + "</div>";
  }

  /** One iteration of the loop over `order`: `if not items: continue`, otherwise the section. */
  method RenderPart(cats: Categories, cat: Category) returns (html: string)
    ensures html == Part(cats, cat)
  {
    html := "";
    if Count(cats, cat) > 0 {
      html := RenderSection(cats, cat);
    }
  }

  /** The loop of `_render_html` over `order`, skipping empty categories. */
  method RenderSections(cats: Categories) returns (html: string)
    ensures html == Render(cats, Order)
  {
    html := "";
    for k := 0 to |Order|
      invariant html == Render(cats, Order[..k])
    {
      var cat := Order[k];
      assert Order[..k + 1][..k] == Order[..k] && Order[..k + 1][k] == cat;
      var part := RenderPart(cats, cat);
      html := html + part;
    }
    assert Order[..|Order|] == Order;
  }

  /**
    `_render_html`: the head, one section per non-empty category in the fixed order,
    each opened by a header with its entry count, and the footer.
  */
  method RenderHtml(cats: Categories, style: string, dateStr: string) returns (html: string)
    ensures html == Head(style, dateStr) + SectionsHtml(cats, Shown(cats, Order)) + Footer
  {
    html := Head(style, dateStr);
    var sections := RenderSections(cats);
    SectionsSkipEmpty(cats, Order);
    html := html + sections + Footer;
  }

  /**
    `generate_html_report` on the rows the two queries returned: categorise, then render.
  */
  method GenerateHtmlReport(signals: seq<SignalRow>, intel: seq<IntelRow>, style: string, dateStr: string)
    returns (html: string, ghost cats: Categories)
    ensures Complete(cats) && cats.trends == TrendOutputs(intel)
    ensures forall c :: cats.items[c] == Bucket(signals, intel, c)
    ensures html == Head(style, dateStr) + SectionsHtml(cats, Shown(cats, Order)) + Footer
  {
    var categories := Categorize(signals, intel);
    cats := categories;
    html := RenderHtml(categories, style, dateStr);
  }
}
