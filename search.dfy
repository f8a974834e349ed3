/**
  `re.search` and `re.finditer` over hand-written matchers. A matcher looks at a string
  and a start index and says whether the pattern matches there (and what it captures);
  the regular-expression engine's job of trying every start from left to right is the
  same for every pattern and is defined once here.
*/
module Search {
  import opened Wrappers

  /** A pattern tried at one start index: the end of the match and what it captures. */
  type Matcher<T> = (string, nat) -> Option<(nat, T)>

  /** `re.search` from index `i`: the leftmost start where `m` matches, with its match. */
  function First<T>(s: string, i: nat, m: Matcher<T>): (r: Option<(nat, (nat, T))>)
    requires i <= |s|
    ensures r.Some? ==> i <= r.value.0 <= |s| && m(s, r.value.0) == Some(r.value.1)
    ensures r.Some? ==> forall k :: i <= k < r.value.0 ==> m(s, k).None?
    ensures r.None? <==> forall k :: i <= k <= |s| ==> m(s, k).None?
    decreases |s| - i
  {
    match m(s, i)
    case Some(hit) => Some((i, hit))
    case None => if i == |s| then None else First(s, i + 1, m)
  }

  /** `m` matches at `i` and at no earlier start: the match `re.search` returns. */
  predicate LeftmostAt<T>(s: string, i: nat, m: Matcher<T>) {
    i <= |s| && m(s, i).Some? && forall k :: 0 <= k < i ==> m(s, k).None?
  }

  /** `m` matches at no start of `s`: `re.search` returns `None`. */
  predicate NoMatch<T>(s: string, m: Matcher<T>) {
    forall k :: 0 <= k <= |s| ==> m(s, k).None?
  }

  /** `re.search` from the start returns the leftmost match, and `None` exactly when there is none. */
  lemma LeftmostIsFirst<T>(s: string, m: Matcher<T>)
    ensures forall i: nat :: LeftmostAt(s, i, m) ==> First(s, 0, m) == Some((i, m(s, i).value))
    ensures NoMatch(s, m) <==> First(s, 0, m).None?
  {
    forall i: nat | LeftmostAt(s, i, m) ensures First(s, 0, m) == Some((i, m(s, i).value)) {
      var j := First(s, 0, m).value.0;
      assert m(s, j).Some? && m(s, i).Some?;
    }
  }

  /**
    `re.finditer` from index `i`: the captures of the successive non-overlapping matches.
    After a match the scan resumes at its end; after an empty match (or an end that does
    not lie past the start) it resumes one character further on.
  */
  function All<T>(s: string, i: nat, m: Matcher<T>): seq<T>
    requires i <= |s|
    decreases |s| - i
  {
    match First(s, i, m)
    case None => []
    case Some((k, (e, v))) =>
      var next := if k < e <= |s| then e else k + 1;
      if next <= |s| then [v] + All(s, next, m) else [v]
  }

  /** Every capture `finditer` yields is the capture of a match at some start. */
  lemma {:induction false} AllMatched<T>(s: string, i: nat, m: Matcher<T>, j: nat)
    requires i <= |s| && j < |All(s, i, m)|
    ensures exists k, e :: i <= k <= |s| && m(s, k) == Some((e, All(s, i, m)[j]))
    decreases |s| - i
  {
    var r := First(s, i, m);
    var k := r.value.0;
    var e := r.value.1.0;
    var v := r.value.1.1;
    var next := if k < e <= |s| then e else k + 1;
    assert All(s, i, m) == if next <= |s| then [v] + All(s, next, m) else [v];
    if j > 0 {
      AllMatched(s, next, m, j - 1);
      assert All(s, i, m)[j] == All(s, next, m)[j - 1];
    } else {
      assert m(s, k) == Some((e, All(s, i, m)[0]));
    }
  }

  /** With no match anywhere, `finditer` yields nothing, and the first match comes first. */
  lemma AllHead<T>(s: string, i: nat, m: Matcher<T>)
    requires i <= |s|
    ensures All(s, i, m) == [] <==> First(s, i, m).None?
    ensures First(s, i, m).Some? ==> All(s, i, m)[0] == First(s, i, m).value.1.1
  {
  }

  /**
    The largest index in `[lo, hi)` where `p` holds: where a greedy run, giving back
    characters one at a time, first finds what must follow it.
  */
  function LastAt(s: string, lo: nat, hi: nat, p: (string, nat) -> bool): (r: Option<nat>)
    ensures r.Some? ==> lo <= r.value < hi && p(s, r.value)
    ensures r.Some? ==> forall k :: r.value < k < hi ==> !p(s, k)
    ensures r.None? <==> forall k :: lo <= k < hi ==> !p(s, k)
    decreases hi
  {
    if hi <= lo then None
    else if p(s, hi - 1) then Some(hi - 1)
    else LastAt(s, lo, hi - 1, p)
  }

  /** The last index in `[lo, hi)` where `p` holds is `j` when it holds there and nowhere after. */
  lemma LastAtIs(s: string, lo: nat, hi: nat, p: (string, nat) -> bool, j: nat)
    requires lo <= j < hi && p(s, j) && forall k :: j < k < hi ==> !p(s, k)
    ensures LastAt(s, lo, hi, p) == Some(j)
  {
  }

  /**
    The smallest index in `[lo, hi)` where `p` holds: where a lazy run, taking characters
    one at a time, first finds what must follow it.
  */
  function FirstAt(s: string, lo: nat, hi: nat, p: (string, nat) -> bool): (r: Option<nat>)
    ensures r.Some? ==> lo <= r.value < hi && p(s, r.value)
    ensures r.Some? ==> forall k :: lo <= k < r.value ==> !p(s, k)
    ensures r.None? <==> forall k :: lo <= k < hi ==> !p(s, k)
    decreases hi - lo
  {
    if hi <= lo then None
    else if p(s, lo) then Some(lo)
    else FirstAt(s, lo + 1, hi, p)
  }

  /** The first index where `p` holds is the one before which it never holds. */
  lemma FirstAtIs(s: string, lo: nat, hi: nat, p: (string, nat) -> bool, j: nat)
    requires lo <= j < hi && p(s, j)
    requires forall k :: lo <= k < j ==> !p(s, k)
    ensures FirstAt(s, lo, hi, p) == Some(j)
  {
    var r := FirstAt(s, lo, hi, p);
    assert r.Some?;
    assert r.value <= j && r.value >= j;
  }

  /**
    A match at `j` is among what `finditer` yields from `i` when every match starting
    between `i` and `j` ends by `j`: no earlier match runs over it.
  */
  lemma {:induction false} AllReaches<T>(s: string, i: nat, m: Matcher<T>, j: nat)
    requires i <= j <= |s| && m(s, j).Some?
    requires forall k :: i <= k < j && m(s, k).Some? ==> m(s, k).value.0 <= j
    ensures m(s, j).value.1 in All(s, i, m)
    decreases |s| - i
  {
    var r := First(s, i, m);
    assert r.Some? && r.value.0 <= j;
    var k := r.value.0;
    var e := r.value.1.0;
    var v := r.value.1.1;
    var next := if k < e <= |s| then e else k + 1;
    assert All(s, i, m) == if next <= |s| then [v] + All(s, next, m) else [v];
    if k == j {
      assert v == m(s, j).value.1;
      assert All(s, i, m)[0] == v;
    } else {
      assert m(s, k) == Some((e, v)) && next <= j;
      AllReaches(s, next, m, j);
      assert All(s, i, m) == [v] + All(s, next, m);
    }
  }

  /** Two positions at which `p` first holds after `lo` are the same position. */
  lemma SameFirst(s: string, lo: nat, a: nat, b: nat, p: (string, nat) -> bool)
    requires lo <= a && p(s, a) && forall i :: lo <= i < a ==> !p(s, i)
    requires lo <= b && p(s, b) && forall i :: lo <= i < b ==> !p(s, i)
    ensures a == b
  {
  }

  /** Whatever `finditer` yields was captured by a match at some start. */
  lemma AllFound<T>(s: string, m: Matcher<T>, x: T)
    requires x in All(s, 0, m)
    ensures exists k, e :: 0 <= k <= |s| && m(s, k) == Some((e, x))
  {
    var j :| 0 <= j < |All(s, 0, m)| && All(s, 0, m)[j] == x;
    AllMatched(s, 0, m, j);
  }
}
