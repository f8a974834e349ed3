/**
  Python's `sorted`: a stable sort under a "goes strictly before" relation. The
  relations used in this model are strict weak orders: `lt` is asymmetric and its
  complement ("does not go after") is transitive. Code-point order on strings, Python's
  `<` on `str`, is one of them.
*/
module Sorting {

  /** `lt` is asymmetric and "`b` does not go before `a`" is transitive. */
  ghost predicate WeakOrder<T(!new)>(lt: (T, T) -> bool) {
    && (forall a, b :: lt(a, b) ==> !lt(b, a))
    && (forall a, b, c :: !lt(b, a) && !lt(c, b) ==> !lt(c, a))
  }

  /** No element goes strictly before an earlier one. */
  predicate Sorted<T>(s: seq<T>, lt: (T, T) -> bool) {
    forall i, j :: 0 <= i < j < |s| ==> !lt(s[j], s[i])
  }

  /** `x` placed before the first element of `s` that does not go strictly before it. */
  function Insert<T>(x: T, s: seq<T>, lt: (T, T) -> bool): seq<T> {
    if s == [] || !lt(s[0], x) then [x] + s
    else [s[0]] + Insert(x, s[1..], lt)
  }

  /** `sorted(s)`: insertion sort from the back, so equal elements keep their order. */
  function Sort<T>(s: seq<T>, lt: (T, T) -> bool): seq<T> {
    if s == [] then [] else Insert(s[0], Sort(s[1..], lt), lt)
  }

  lemma SortedTail<T>(s: seq<T>, lt: (T, T) -> bool)
    requires s != [] && Sorted(s, lt)
    ensures Sorted(s[1..], lt)
  {
    var rest := s[1..];
    forall i, j | 0 <= i < j < |rest| ensures !lt(rest[j], rest[i]) {
      assert rest[i] == s[i + 1] && rest[j] == s[j + 1];
    }
  }

  /** Insertion adds exactly the inserted element. */
  lemma {:induction false} InsertMultiset<T>(x: T, s: seq<T>, lt: (T, T) -> bool)
    ensures multiset(Insert(x, s, lt)) == multiset(s) + multiset{x}
  {
    if s != [] && lt(s[0], x) {
      InsertMultiset(x, s[1..], lt);
      assert s == [s[0]] + s[1..];
    }
  }

  /** Insertion into a sorted sequence keeps it sorted. */
  lemma {:induction false} InsertSorted<T(!new)>(x: T, s: seq<T>, lt: (T, T) -> bool)
    requires WeakOrder(lt) && Sorted(s, lt)
    ensures Sorted(Insert(x, s, lt), lt)
  {
    if s == [] {
    } else if !lt(s[0], x) {
      var r := [x] + s;
      forall j | 0 < j < |r| ensures !lt(r[j], x) {
        assert r[j] == s[j - 1];
        if j > 1 { assert !lt(s[j - 1], s[0]); }
      }
      forall i, j | 0 < i < j < |r| ensures !lt(r[j], r[i]) {
        assert r[i] == s[i - 1] && r[j] == s[j - 1];
      }
    } else {
      var rest := s[1..];
      SortedTail(s, lt);
      InsertSorted(x, rest, lt);
      InsertMultiset(x, rest, lt);
      var ins := Insert(x, rest, lt);
      var r := [s[0]] + ins;
      forall j | 0 < j < |r| ensures !lt(r[j], s[0]) {
        assert r[j] == ins[j - 1] && ins[j - 1] in multiset(ins);
        if r[j] != x {
          assert r[j] in multiset(rest);
          var k :| 0 <= k < |rest| && rest[k] == r[j];
          assert rest[k] == s[k + 1];
        }
      }
      forall i, j | 0 < i < j < |r| ensures !lt(r[j], r[i]) {
        assert r[i] == ins[i - 1] && r[j] == ins[j - 1];
      }
    }
  }

  /** The result is ordered. */
  lemma {:induction false} SortSorted<T(!new)>(s: seq<T>, lt: (T, T) -> bool)
    requires WeakOrder(lt)
    ensures Sorted(Sort(s, lt), lt)
  {
    if s != [] {
      SortSorted(s[1..], lt);
      InsertSorted(s[0], Sort(s[1..], lt), lt);
    }
  }

  /** The result is a permutation of the input. */
  lemma {:induction false} SortPermutation<T>(s: seq<T>, lt: (T, T) -> bool)
    ensures multiset(Sort(s, lt)) == multiset(s)
  {
    if s != [] {
      SortPermutation(s[1..], lt);
      InsertMultiset(s[0], Sort(s[1..], lt), lt);
      assert s == [s[0]] + s[1..];
    }
  }

  /** The elements of `s` that neither go before nor after `p`, in order. */
  function Peers<T>(s: seq<T>, p: T, lt: (T, T) -> bool): seq<T> {
    if s == [] then []
    else (if !lt(s[0], p) && !lt(p, s[0]) then [s[0]] else []) + Peers(s[1..], p, lt)
  }

  /** An inserted element goes before its peers, and leaves every other class as it was. */
  lemma {:induction false} InsertStable<T(!new)>(x: T, s: seq<T>, p: T, lt: (T, T) -> bool)
    requires WeakOrder(lt) && Sorted(s, lt)
    ensures Peers(Insert(x, s, lt), p, lt) == (if !lt(x, p) && !lt(p, x) then [x] else []) + Peers(s, p, lt)
  {
    if s != [] && lt(s[0], x) {
      SortedTail(s, lt);
      InsertStable(x, s[1..], p, lt);
      assert ([s[0]] + Insert(x, s[1..], lt))[1..] == Insert(x, s[1..], lt);
      // s[0] goes strictly before x; when x is a peer of p, s[0] goes before p too.
      assert !lt(p, x) ==> lt(s[0], p);
    } else {
      assert ([x] + s)[1..] == s;
    }
  }

  /** Elements that compare equal keep their relative order. */
  lemma {:induction false} SortStable<T(!new)>(s: seq<T>, p: T, lt: (T, T) -> bool)
    requires WeakOrder(lt)
    ensures Peers(Sort(s, lt), p, lt) == Peers(s, p, lt)
  {
    if s != [] {
      SortStable(s[1..], p, lt);
      SortSorted(s[1..], lt);
      InsertStable(s[0], Sort(s[1..], lt), p, lt);
    }
  }

  /** Python's `<` on strings: code-point order, a proper prefix first. */
  predicate LexLess(a: string, b: string) {
    if a == [] then b != []
    else if b == [] then false
    else if a[0] != b[0] then a[0] < b[0]
    else LexLess(a[1..], b[1..])
  }

  lemma {:induction false} LexTotal(a: string, b: string)
    ensures LexLess(a, b) || a == b || LexLess(b, a)
    ensures !(LexLess(a, b) && LexLess(b, a))
  {
    if a != [] && b != [] && a[0] == b[0] {
      LexTotal(a[1..], b[1..]);
      if a[1..] == b[1..] {
        assert a == [a[0]] + a[1..] && b == [b[0]] + b[1..];
      }
    }
  }

  lemma {:induction false} LexTransitive(a: string, b: string, c: string)
    requires LexLess(a, b) && LexLess(b, c)
    ensures LexLess(a, c)
  {
    if a != [] && a[0] == b[0] && b[0] == c[0] {
      LexTransitive(a[1..], b[1..], c[1..]);
    }
  }

  /** Code-point order is a strict weak order (indeed a total one). */
  lemma LexWeakOrder()
    ensures WeakOrder(LexLess)
  {
    forall a, b | LexLess(a, b) ensures !LexLess(b, a) {
      LexTotal(a, b);
    }
    forall a, b, c | !LexLess(b, a) && !LexLess(c, b) ensures !LexLess(c, a) {
      LexTotal(a, b);
      LexTotal(b, c);
      LexTotal(a, c);
      if LexLess(c, a) {
        if LexLess(a, b) { LexTransitive(c, a, b); }
      }
    }
  }
}
