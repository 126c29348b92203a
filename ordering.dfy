/** Ordering of query results.  A row is ordered by a key, a sequence of
    reals compared lexicographically, so that one insertion procedure serves
    every `ORDER BY` the routes ask for (by date, by year and month
    descending, by name, by amount descending). */
module Ordering {

  /** Lexicographic "less than or equal" on keys. */
  predicate LexLe(a: seq<real>, b: seq<real>)
    decreases |a|
  {
    |a| == 0 || (|b| > 0 && (a[0] < b[0] || (a[0] == b[0] && LexLe(a[1..], b[1..]))))
  }

  lemma {:induction false} LexLeReflexive(a: seq<real>)
    ensures LexLe(a, a)
    decreases |a|
  {
    if |a| > 0 {
      LexLeReflexive(a[1..]);
    }
  }

  lemma {:induction false} LexLeTotal(a: seq<real>, b: seq<real>)
    ensures LexLe(a, b) || LexLe(b, a)
    decreases |a|
  {
    if |a| > 0 && |b| > 0 && a[0] == b[0] {
      LexLeTotal(a[1..], b[1..]);
    }
  }

  lemma {:induction false} LexLeTransitive(a: seq<real>, b: seq<real>, c: seq<real>)
    requires LexLe(a, b) && LexLe(b, c)
    ensures LexLe(a, c)
    decreases |a|
  {
    if |a| > 0 && a[0] == b[0] && b[0] == c[0] {
      LexLeTransitive(a[1..], b[1..], c[1..]);
    }
  }

  lemma {:induction false} LexLeAntisymmetric(a: seq<real>, b: seq<real>)
    requires LexLe(a, b) && LexLe(b, a)
    requires |a| == |b|
    ensures a == b
    decreases |a|
  {
    if |a| > 0 {
      LexLeAntisymmetric(a[1..], b[1..]);
      assert a == [a[0]] + a[1..] && b == [b[0]] + b[1..];
    }
  }

  ghost predicate SortedBy<T>(s: seq<T>, key: T -> seq<real>) {
    forall i, j :: 0 <= i < j < |s| ==> LexLe(key(s[i]), key(s[j]))
  }

  ghost predicate DistinctBy<T>(s: seq<T>, id: T -> nat) {
    forall i, j :: 0 <= i < j < |s| ==> id(s[i]) != id(s[j])
  }

  /** Where `x` goes in `s`: after every row whose key is below x's, before
      the first row whose key is at least x's. */
  function InsertionPoint<T>(s: seq<T>, x: T, key: T -> seq<real>): (p: nat)
    ensures p <= |s|
    ensures forall k :: 0 <= k < p ==> !LexLe(key(x), key(s[k]))
    ensures p < |s| ==> LexLe(key(x), key(s[p]))
  {
    if s == [] || LexLe(key(x), key(s[0])) then 0
    else 1 + InsertionPoint(s[1..], x, key)
  }

  function Insert<T>(s: seq<T>, x: T, key: T -> seq<real>): (r: seq<T>)
    ensures |r| == |s| + 1
    ensures multiset(r) == multiset(s) + multiset{x}
  {
    var p := InsertionPoint(s, x, key);
    assert s == s[..p] + s[p..];
    s[..p] + [x] + s[p..]
  }

  /** Inserting adds exactly the new element. */
  lemma InsertMembers<T>(s: seq<T>, x: T, key: T -> seq<real>)
    ensures forall y :: y in Insert(s, x, key) <==> y == x || y in s
  {
    var r := Insert(s, x, key);
    forall y
      ensures y in r <==> y == x || y in s
    {
      assert y in r <==> y in multiset(r);
      assert y in s <==> y in multiset(s);
    }
  }

  /** Inserting at the insertion point keeps a sorted sequence sorted. */
  lemma InsertKeepsSorted<T>(s: seq<T>, x: T, key: T -> seq<real>)
    requires SortedBy(s, key)
    ensures SortedBy(Insert(s, x, key), key)
  {
    var p := InsertionPoint(s, x, key);
    var r := Insert(s, x, key);
    assert r == s[..p] + [x] + s[p..];
    forall k | 0 <= k < p
      ensures LexLe(key(s[k]), key(x))
    {
      LexLeTotal(key(x), key(s[k]));
    }
    forall k | p <= k < |s|
      ensures LexLe(key(x), key(s[k]))
    {
      if k > p {
        LexLeTransitive(key(x), key(s[p]), key(s[k]));
      }
    }
    forall i, j | 0 <= i < j < |r|
      ensures LexLe(key(r[i]), key(r[j]))
    {
      if i < p && j > p {
        LexLeTransitive(key(r[i]), key(x), key(r[j]));
      }
    }
  }

  /** Inserting a row whose id is new keeps the ids pairwise distinct. */
  lemma InsertKeepsDistinct<T>(s: seq<T>, x: T, key: T -> seq<real>, id: T -> nat)
    requires DistinctBy(s, id)
    requires forall k :: 0 <= k < |s| ==> id(s[k]) != id(x)
    ensures DistinctBy(Insert(s, x, key), id)
  {
    var p := InsertionPoint(s, x, key);
    var r := Insert(s, x, key);
    assert r == s[..p] + [x] + s[p..];
    forall i, j | 0 <= i < j < |r|
      ensures id(r[i]) != id(r[j])
    {
      var si := if i < p then i else i - 1;
      var sj := if j <= p then j else j - 1;
      if i != p && j != p {
        assert r[i] == s[si] && r[j] == s[sj] && si < sj;
      }
    }
  }

  /** Insertion sort: the rows of `s`, ordered by `key`. */
  function SortBy<T>(s: seq<T>, key: T -> seq<real>): (r: seq<T>)
    ensures multiset(r) == multiset(s)
    ensures SortedBy(r, key)
  {
    if s == [] then []
    else
      var rest := SortBy(s[1..], key);
      InsertKeepsSorted(rest, s[0], key);
      assert s == [s[0]] + s[1..];
      Insert(rest, s[0], key)
  }
}
