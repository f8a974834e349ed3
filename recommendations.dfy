/**
  The recommendation engine: it collects semantic hits for the user's latest query and
  trending signals, drops entries whose content repeats an earlier entry's first fifty
  characters, ranks the rest by score and keeps the first `limit`. Scores are integers
  in thousandths, so the trending score 0.5 is 500.
*/
module Recommendations {
  import opened Wrappers
  import opened Dicts
  import opened Text
  import opened Sorting

  /** The trending score, 0.5, in thousandths. */
  const TrendingScore: int := 500

  datatype Kind = Semantic | Trending

  /** One recommendation dictionary; `url` only on trending entries. */
  datatype Rec = Rec(kind: Kind, source: string, content: string, score: int, reason: string, url: Option<string>)

  /** A stored conversation message: its `role` entry, if any, and its `content`. */
  datatype Message = Message(role: Option<string>, content: string)

  /** A search hit: its `fields` dictionary and its `_score`, if any. */
  datatype Hit = Hit(fields: Dict<string, string>, score: Option<int>)

  /** A stored signal: its `payload`, the payload's `str()`, and its `source`, if any. */
  datatype Signal = Signal(payload: Dict<string, string>, payloadText: string, source: Option<string>)

  /** The contents of the user's messages, in order. */
  function UserQueries(history: seq<Message>): (qs: seq<string>)
    ensures |qs| <= |history|
  {
    if history == [] then []
    else
      var last := history[|history| - 1];
      UserQueries(history[..|history| - 1]) + (if last.role == Some("user") then [last.content] else [])
  }

  /** The entry for a semantic hit found for `seed`. */
  function SemanticRec(hit: Hit, seed: string): Rec {
    Rec(Semantic, Get(hit.fields, "source").GetOr("knowledge"), Prefix(Get(hit.fields, "content").GetOr(""), 200),
        hit.score.GetOr(0), "Related to: '" + Prefix(seed, 50) + "'", None)
  }

  /** The entries for the first `limit` hits: each semantic, with at most 200 characters of content. */
  function SemanticRecs(hits: seq<Hit>, limit: int, seed: string): (recs: seq<Rec>)
    ensures limit >= 0 ==> |recs| <= limit
    ensures forall i :: 0 <= i < |recs| ==> recs[i].kind == Semantic && |recs[i].content| <= 200
  {
    var taken := Prefix(hits, limit);
    seq(|taken|, i requires 0 <= i < |taken| => SemanticRec(taken[i], seed))
  }

  /** The payload's `title`, or "". */
  function Title(sig: Signal): string {
    Get(sig.payload, "title").GetOr("")
  }

  /** The signal's title is non-empty and its first thirty characters occur in a collected entry. */
  predicate Skipped(recs: seq<Rec>, sig: Signal) {
    Title(sig) != "" && exists i :: 0 <= i < |recs| && Contains(recs[i].content, Prefix(Title(sig), 30))
  }

  /** The trending entry for a signal. */
  function TrendingRec(sig: Signal): (r: Rec)
    ensures r.kind == Trending && r.score == TrendingScore && r.url.Some?
    ensures r.source == sig.source.GetOr("unknown") && r.reason == "Trending from " + r.source
    ensures Title(sig) != "" ==> r.content == Title(sig)
    ensures Title(sig) == "" ==> |r.content| <= 200 && r.content <= sig.payloadText
  {
    var source := sig.source.GetOr("unknown");
    var url := match Get(sig.payload, "url")
      case Some(u) => if u != "" then u else Get(sig.payload, "html_url").GetOr("")
      case None => Get(sig.payload, "html_url").GetOr("");
    Rec(Trending, source, if Title(sig) != "" then Title(sig) else Prefix(sig.payloadText, 200),
        TrendingScore, "Trending from " + source, Some(url))
  }

  /** The collected entries after the trending signals are considered in order. */
  function AddTrending(recs: seq<Rec>, sigs: seq<Signal>): seq<Rec> {
    if sigs == [] then recs
    else
      var acc := AddTrending(recs, sigs[..|sigs| - 1]);
      var sig := sigs[|sigs| - 1];
      if Skipped(acc, sig) then acc else acc + [TrendingRec(sig)]
  }

  /**
    Trending signals only add entries: the entries collected before stay as they were,
    at most one entry per signal follows, and each is trending with score 0.5.
  */
  lemma {:induction false} TrendingAppends(recs: seq<Rec>, sigs: seq<Signal>)
    ensures |recs| <= |AddTrending(recs, sigs)| <= |recs| + |sigs|
    ensures AddTrending(recs, sigs)[..|recs|] == recs
    ensures forall i :: |recs| <= i < |AddTrending(recs, sigs)| ==>
      AddTrending(recs, sigs)[i].kind == Trending && AddTrending(recs, sigs)[i].score == TrendingScore
  {
    if sigs != [] {
      var init := sigs[..|sigs| - 1];
      TrendingAppends(recs, init);
      var acc := AddTrending(recs, init);
      if !Skipped(acc, sigs[|sigs| - 1]) {
        var r := acc + [TrendingRec(sigs[|sigs| - 1])];
        assert r[..|recs|] == acc[..|recs|];
        forall i | |recs| <= i < |r| ensures r[i].kind == Trending && r[i].score == TrendingScore {
          if i < |acc| { assert r[i] == acc[i]; }
        }
      }
    }
  }

  /**
    A signal whose title's first thirty characters already occur in a collected entry
    adds nothing.
  */
  lemma SkippedAddsNothing(recs: seq<Rec>, sigs: seq<Signal>, sig: Signal, i: nat)
    requires Title(sig) != "" && i < |recs| && Contains(recs[i].content, Prefix(Title(sig), 30))
    ensures AddTrending(recs, sigs + [sig]) == AddTrending(recs, sigs)
  {
    assert (sigs + [sig])[..|sigs|] == sigs;
    TrendingAppends(recs, sigs);
    assert AddTrending(recs, sigs)[i] == recs[i];
  }

  /** The first fifty characters of an entry's content. */
  function Key(r: Rec): string {
    Prefix(r.content, 50)
  }

  /** The keys of the given entries. */
  function SeenKeys(recs: seq<Rec>): set<string> {
    set i | 0 <= i < |recs| :: Key(recs[i])
  }

  /** The entries with a key no earlier entry had, in order. */
  function Dedupe(recs: seq<Rec>): (unique: seq<Rec>)
    ensures |unique| <= |recs|
  {
    if recs == [] then []
    else
      var d := Dedupe(recs[..|recs| - 1]);
      var last := recs[|recs| - 1];
      if Key(last) in SeenKeys(d) then d else d + [last]
  }

  /** Entry `i` is the first with its key. */
  predicate FirstWithKey(recs: seq<Rec>, i: nat)
    requires i < |recs|
  {
    forall k :: 0 <= k < i ==> Key(recs[k]) != Key(recs[i])
  }

  /** Appending an entry adds its key. */
  lemma SeenKeysSnoc(recs: seq<Rec>, r: Rec)
    ensures SeenKeys(recs + [r]) == SeenKeys(recs) + {Key(r)}
  {
    var e := recs + [r];
    forall q | q in SeenKeys(e) ensures q in SeenKeys(recs) + {Key(r)} {
      var k :| 0 <= k < |e| && Key(e[k]) == q;
      if k < |recs| { assert e[k] == recs[k]; }
    }
    forall q | q in SeenKeys(recs) ensures q in SeenKeys(e) {
      var k :| 0 <= k < |recs| && Key(recs[k]) == q;
      assert e[k] == recs[k];
    }
    assert Key(e[|recs|]) in SeenKeys(e);
  }

  /** No two entries share a key. */
  predicate DistinctKeys(recs: seq<Rec>) {
    forall i, j :: 0 <= i < j < |recs| ==> Key(recs[i]) != Key(recs[j])
  }

  /** De-duplication loses no key and keeps no key twice. */
  lemma {:induction false} DedupeKeys(recs: seq<Rec>)
    ensures SeenKeys(Dedupe(recs)) == SeenKeys(recs)
    ensures DistinctKeys(Dedupe(recs))
  {
    if recs != [] {
      var n := |recs| - 1;
      var init := recs[..n];
      DedupeKeys(init);
      var d := Dedupe(init);
      assert recs == init + [recs[n]];
      SeenKeysSnoc(init, recs[n]);
      if Key(recs[n]) !in SeenKeys(d) {
        SeenKeysSnoc(d, recs[n]);
        var e := d + [recs[n]];
        forall i, j | 0 <= i < j < |e| ensures Key(e[i]) != Key(e[j]) {
          assert e[i] == d[i];
          if j == |d| {
            assert Key(d[i]) in SeenKeys(d);
          } else {
            assert e[j] == d[j];
          }
        }
      }
    }
  }

  /** Every entry de-duplication keeps is the first entry with its key. */
  lemma {:induction false} DedupeKeepsFirst(recs: seq<Rec>)
    ensures forall r :: r in Dedupe(recs) ==> exists i :: 0 <= i < |recs| && recs[i] == r && FirstWithKey(recs, i)
  {
    if recs != [] {
      var n := |recs| - 1;
      var init := recs[..n];
      DedupeKeepsFirst(init);
      DedupeKeys(init);
      var d := Dedupe(init);
      forall r | r in d ensures exists i :: 0 <= i < |recs| && recs[i] == r && FirstWithKey(recs, i) {
        var i :| 0 <= i < |init| && init[i] == r && FirstWithKey(init, i);
        assert recs[i] == r;
        forall k | 0 <= k < i ensures Key(recs[k]) != Key(recs[i]) {
          assert recs[k] == init[k];
        }
      }
      if Key(recs[n]) !in SeenKeys(d) {
        forall k | 0 <= k < n ensures Key(recs[k]) != Key(recs[n]) {
          assert recs[k] == init[k] && Key(init[k]) in SeenKeys(init);
        }
        assert FirstWithKey(recs, n);
      }
    }
  }

  /** `a` goes strictly before `b` in the ranking: it has the higher score. */
  predicate HigherScore(a: Rec, b: Rec) {
    a.score > b.score
  }

  lemma HigherScoreWeakOrder()
    ensures WeakOrder(HigherScore)
  {
  }

  /** Scores never increase along the sequence. */
  predicate SortedByScore(recs: seq<Rec>) {
    forall i, j :: 0 <= i < j < |recs| ==> recs[i].score >= recs[j].score
  }

  /**
    `list.sort(key=score, reverse=True)`: a stable sort by descending score (Python's
    reverse sort keeps equal entries in their original order).
  */
  function SortByScore(recs: seq<Rec>): (r: seq<Rec>)
    ensures SortedByScore(r)
    ensures multiset(r) == multiset(recs)
  {
    HigherScoreWeakOrder();
    Sorting.SortSorted(recs, HigherScore);
    Sorting.SortPermutation(recs, HigherScore);
    var r := Sort(recs, HigherScore);
    assert forall i, j :: 0 <= i < j < |r| ==> !HigherScore(r[j], r[i]);
    r
  }

  /** The entries with score `s`, in order. */
  function WithScore(recs: seq<Rec>, s: int): seq<Rec> {
    if recs == [] then []
    else (if recs[0].score == s then [recs[0]] else []) + WithScore(recs[1..], s)
  }

  /** The entries ranked level with `p` are those with its score. */
  lemma {:induction false} PeersWithScore(recs: seq<Rec>, p: Rec)
    ensures Peers(recs, p, HigherScore) == WithScore(recs, p.score)
  {
    if recs != [] {
      PeersWithScore(recs[1..], p);
    }
  }

  /** The ranking is stable: the entries of any one score keep their order. */
  lemma SortStable(recs: seq<Rec>, s: int)
    ensures WithScore(SortByScore(recs), s) == WithScore(recs, s)
  {
    var p := Rec(Semantic, "", "", s, "", None);
    HigherScoreWeakOrder();
    Sorting.SortStable(recs, p, HigherScore);
    PeersWithScore(SortByScore(recs), p);
    PeersWithScore(recs, p);
  }

  /** An entry that occurs twice is counted twice. */
  lemma CountTwice(recs: seq<Rec>, i: nat, j: nat)
    requires i < j < |recs| && recs[i] == recs[j]
    ensures multiset(recs)[recs[i]] >= 2
  {
    assert recs == recs[..j] + [recs[j]] + recs[j + 1..];
    assert recs[i] in recs[..j];
  }

  /** With distinct keys, every entry is counted once. */
  lemma CountOnce(recs: seq<Rec>, a: nat)
    requires a < |recs| && DistinctKeys(recs)
    ensures multiset(recs)[recs[a]] == 1
  {
    assert recs == recs[..a] + [recs[a]] + recs[a + 1..];
    assert recs[a] !in recs[..a];
    var tail := recs[a + 1..];
    forall k | 0 <= k < |tail| ensures tail[k] != recs[a] {
      assert tail[k] == recs[a + 1 + k];
    }
  }

  /** Ranking entries with distinct keys keeps the keys distinct. */
  lemma RankedUnique(recs: seq<Rec>)
    requires DistinctKeys(recs)
    ensures DistinctKeys(SortByScore(recs))
  {
    var r := SortByScore(recs);
    forall i, j | 0 <= i < j < |r| ensures Key(r[i]) != Key(r[j]) {
      if Key(r[i]) == Key(r[j]) {
        assert r[i] in multiset(recs) && r[j] in multiset(recs);
        var a :| 0 <= a < |recs| && recs[a] == r[i];
        var b :| 0 <= b < |recs| && recs[b] == r[j];
        assert a == b;
        CountTwice(r, i, j);
        CountOnce(recs, a);
      }
    }
  }

  /** The entries collected before de-duplication: semantic hits, then trending signals. */
  function Collected(conversationId: Option<string>, history: Option<seq<Message>>, indexReady: bool,
                     hits: Option<seq<Hit>>, signals: Option<seq<Signal>>, limit: int): seq<Rec>
  {
    var queries := if conversationId.Some? && conversationId.value != "" && history.Some?
                   then UserQueries(history.value) else [];
    var semantic := if indexReady && queries != [] && hits.Some?
                    then SemanticRecs(hits.value, limit, queries[|queries| - 1]) else [];
    if signals.Some? then AddTrending(semantic, signals.value) else semantic
  }

  /** What `get_recommendations` returns. */
  function Recommended(conversationId: Option<string>, history: Option<seq<Message>>, indexReady: bool,
                       hits: Option<seq<Hit>>, signals: Option<seq<Signal>>, limit: int): seq<Rec>
  {
    Prefix(SortByScore(Dedupe(Collected(conversationId, history, indexReady, hits, signals, limit))), limit)
  }

  /**
    `get_recommendations`. The conversation history, the search hits and the signals
    are what the stores returned (`None` where the call raised, which is swallowed);
    `indexReady` says whether the search index was set up.
  */
  method GetRecommendations(conversationId: Option<string>, history: Option<seq<Message>>, indexReady: bool,
                            hits: Option<seq<Hit>>, signals: Option<seq<Signal>>, limit: int)
    returns (result: seq<Rec>)
    ensures result == Recommended(conversationId, history, indexReady, hits, signals, limit)
    ensures limit >= 0 ==> |result| <= limit
    ensures SortedByScore(result) && DistinctKeys(result)
  {
    var recommendations := CollectAll(conversationId, history, indexReady, hits, signals, limit);
    var unique := Deduplicate(recommendations);
    var ranked := SortByScore(unique);
    result := Prefix(ranked, limit);
    Ranked(recommendations, limit);
  }

  /** The kept prefix of the ranking is sorted and has distinct keys. */
  lemma Ranked(recs: seq<Rec>, limit: int)
    ensures SortedByScore(Prefix(SortByScore(Dedupe(recs)), limit))
    ensures DistinctKeys(Prefix(SortByScore(Dedupe(recs)), limit))
  {
    var unique := Dedupe(recs);
    var ranked := SortByScore(unique);
    var result := Prefix(ranked, limit);
    DedupeKeys(recs);
    RankedUnique(unique);
    forall i, j | 0 <= i < j < |result| ensures Key(result[i]) != Key(result[j]) && result[i].score >= result[j].score {
      assert result[i] == ranked[i] && result[j] == ranked[j];
    }
  }

  /** The collection phase: the semantic hits for the latest user query, then the trending signals. */
  method CollectAll(conversationId: Option<string>, history: Option<seq<Message>>, indexReady: bool,
                    hits: Option<seq<Hit>>, signals: Option<seq<Signal>>, limit: int)
    returns (recs: seq<Rec>)
    ensures recs == Collected(conversationId, history, indexReady, hits, signals, limit)
  {
    recs := [];
    var queries: seq<string> := [];
    if conversationId.Some? && conversationId.value != "" && history.Some? {
      queries := UserQueries(history.value);
    }
    if indexReady && queries != [] && hits.Some? {
      recs := CollectSemantic(hits.value, limit, queries[|queries| - 1]);
    }
    if signals.Some? {
      recs := CollectTrending(recs, signals.value);
    }
  }

  /** The semantic-search loop: one entry per hit among the first `limit`. */
  method CollectSemantic(hits: seq<Hit>, limit: int, seed: string) returns (recs: seq<Rec>)
    ensures recs == SemanticRecs(hits, limit, seed)
  {
    var taken := Prefix(hits, limit);
    recs := [];
    for i := 0 to |taken|
      invariant recs == SemanticRecs(hits, limit, seed)[..i]
    {
      recs := recs + [SemanticRec(taken[i], seed)];
    }
  }

  /** The trending loop over the signals, skipping those already covered. */
  method CollectTrending(start: seq<Rec>, sigs: seq<Signal>) returns (recs: seq<Rec>)
    ensures recs == AddTrending(start, sigs)
  {
    recs := start;
    for i := 0 to |sigs|
      invariant recs == AddTrending(start, sigs[..i])
    {
      assert sigs[..i + 1][..i] == sigs[..i];
      if !Skipped(recs, sigs[i]) {
        recs := recs + [TrendingRec(sigs[i])];
      }
    }
    assert sigs[..|sigs|] == sigs;
  }

  /** The de-duplication loop over `seen` and `unique`. */
  method Deduplicate(recs: seq<Rec>) returns (unique: seq<Rec>)
    ensures unique == Dedupe(recs)
  {
    var seen: set<string> := {};
    unique := [];
    for i := 0 to |recs|
      invariant unique == Dedupe(recs[..i]) && seen == SeenKeys(unique)
    {
      assert recs[..i + 1][..i] == recs[..i];
      var key := Key(recs[i]);
      if key !in seen {
        seen := seen + {key};
        SeenKeysSnoc(unique, recs[i]);
        unique := unique + [recs[i]];
      }
    }
    assert recs[..|recs|] == recs;
  }
}
