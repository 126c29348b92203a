/** The `filter(...).reduce((sum, x) => sum + x, 0)` folds the routes apply to
    fetched rows: sums of amounts, and the partition of budget categories by
    type. */
module Totals {
  import opened Records

  /** Left-to-right sum of `w` over the rows. */
  function Sum<T>(s: seq<T>, w: T -> real): real {
    if s == [] then 0.0 else w(s[0]) + Sum(s[1..], w)
  }

  lemma {:induction false} SumConcat<T>(a: seq<T>, b: seq<T>, w: T -> real)
    ensures Sum(a + b, w) == Sum(a, w) + Sum(b, w)
    decreases |a|
  {
    if a == [] {
      assert a + b == b;
    } else {
      assert (a + b)[1..] == a[1..] + b;
      SumConcat(a[1..], b, w);
    }
  }

  /** Taking one row out of a sum. */
  lemma SumRemoveAt<T>(b: seq<T>, k: nat, w: T -> real)
    requires k < |b|
    ensures Sum(b, w) == w(b[k]) + Sum(b[..k] + b[k + 1..], w)
  {
    var front, rest := b[..k], b[k + 1..];
    assert b == front + ([b[k]] + rest);
    SumConcat(front, [b[k]] + rest, w);
    assert Sum([b[k]] + rest, w) == w(b[k]) + Sum(rest, w) by {
      assert ([b[k]] + rest)[1..] == rest;
    }
    SumConcat(front, rest, w);
  }

  lemma MultisetRemoveAt<T>(b: seq<T>, k: nat)
    requires k < |b|
    ensures multiset(b[..k] + b[k + 1..]) == multiset(b) - multiset{b[k]}
  {
    assert b == b[..k] + [b[k]] + b[k + 1..];
  }

  /** A sum does not depend on the order in which the rows were fetched. */
  lemma {:induction false} SumPermutation<T>(a: seq<T>, b: seq<T>, w: T -> real)
    requires multiset(a) == multiset(b)
    ensures Sum(a, w) == Sum(b, w)
    decreases |a|
  {
    if a == [] {
      assert |b| == |multiset(b)| == 0;
    } else {
      var x, tail := a[0], a[1..];
      assert a == [x] + tail;
      assert multiset(tail) == multiset(a) - multiset{x};
      assert x in b by {
        assert x in multiset(b);
      }
      var k :| 0 <= k < |b| && b[k] == x;
      var rest := b[..k] + b[k + 1..];
      MultisetRemoveAt(b, k);
      SumPermutation(tail, rest, w);
      SumRemoveAt(b, k, w);
    }
  }

  function Amount(c: Category): real { c.amount }
  function AmountSpent(e: Expense): real { e.amountSpent }

  /** `sum + parseFloat(cat.amount)` folded over the rows. */
  function Total(cats: seq<Category>): real {
    Sum(cats, Amount)
  }

  /** `filter(cat => cat.type === t)`. */
  function OfType(cats: seq<Category>, t: CategoryType): (r: seq<Category>)
    ensures |r| <= |cats|
    ensures forall c :: c in r <==> c in cats && c.kind == t
  {
    if cats == [] then []
    else if cats[0].kind == t then [cats[0]] + OfType(cats[1..], t)
    else OfType(cats[1..], t)
  }

  /** The two types are exhaustive: the Spent total and the Savings total
      together make up the total of all categories. */
  lemma {:induction false} PartitionTotal(cats: seq<Category>)
    ensures Total(OfType(cats, Spent)) + Total(OfType(cats, Savings)) == Total(cats)
    decreases |cats|
  {
    if cats != [] {
      PartitionTotal(cats[1..]);
    }
  }

  /** Filtering counts each row of the right type as often as the input has it. */
  lemma {:induction false} OfTypeCount(cats: seq<Category>, t: CategoryType, c: Category)
    ensures multiset(OfType(cats, t))[c] == if c.kind == t then multiset(cats)[c] else 0
    decreases |cats|
  {
    if cats != [] {
      OfTypeCount(cats[1..], t, c);
      assert cats == [cats[0]] + cats[1..];
    }
  }

  /** Filtering two orderings of the same rows gives two orderings of the
      same filtered rows. */
  lemma OfTypePermutation(a: seq<Category>, b: seq<Category>, t: CategoryType)
    requires multiset(a) == multiset(b)
    ensures multiset(OfType(a, t)) == multiset(OfType(b, t))
  {
    forall c
      ensures multiset(OfType(a, t))[c] == multiset(OfType(b, t))[c]
    {
      OfTypeCount(a, t, c);
      OfTypeCount(b, t, c);
    }
  }

  /** Totals per type do not depend on the order of the rows. */
  lemma TypeTotalPermutation(a: seq<Category>, b: seq<Category>, t: CategoryType)
    requires multiset(a) == multiset(b)
    ensures Total(OfType(a, t)) == Total(OfType(b, t))
  {
    OfTypePermutation(a, b, t);
    SumPermutation(OfType(a, t), OfType(b, t), Amount);
  }

  /** Filtering rows already restricted to a type (as a query with
      `.eq('type', t)` returns them) changes nothing. */
  lemma {:induction false} OfTypeIdempotent(cats: seq<Category>, t: CategoryType)
    ensures OfType(OfType(cats, t), t) == OfType(cats, t)
    decreases |cats|
  {
    if cats != [] {
      OfTypeIdempotent(cats[1..], t);
    }
  }

  /** With validated (non-negative) amounts, every total is non-negative. */
  lemma {:induction false} TotalNonNegative(cats: seq<Category>)
    requires forall i :: 0 <= i < |cats| ==> cats[i].amount >= 0.0
    ensures Total(cats) >= 0.0
    decreases |cats|
  {
    if cats != [] {
      TotalNonNegative(cats[1..]);
    }
  }
}
