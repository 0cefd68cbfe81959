/**
 The price sort of src/Pages/Products.tsx: `filtered.sort((a, b) => a.price - b.price)`
 and its descending twin. Section 23.1.3.30 of ECMA-262 (2023 edition) requires
 `Array.prototype.sort` to be stable, so products of equal price keep their order.
 `Sort` is the reference result; `SortIsUnique` shows that every ordered, stable
 rearrangement equals it, so the engine's choice of algorithm does not matter.
 `SortInPlace` sorts an array in place to that result.
 */
module PriceSort {
  import opened Entities
  import opened Seqs

  /** The two directions of `priceSort` ('asc' and 'desc'). */
  datatype SortOrder = Asc | Desc

  /** The comparator passed to `sort`: positive when `a` belongs after `b`. */
  function Compare(order: SortOrder, a: Product, b: Product): int {
    match order
    case Asc => a.price - b.price
    case Desc => b.price - a.price
  }

  /** No element belongs after a later one. */
  predicate Ordered(order: SortOrder, s: seq<Product>) {
    forall i, j :: 0 <= i < j < |s| ==> Compare(order, s[i], s[j]) <= 0
  }

  /** The products of `s` priced `p`, in their order in `s`. */
  function WithPrice(s: seq<Product>, p: nat): seq<Product> {
    if s == [] then []
    else WithPrice(s[..|s| - 1], p) + (if s[|s| - 1].price == p then [s[|s| - 1]] else [])
  }

  /** The price class of `p` holds exactly the products of `s` priced `p`. */
  lemma {:induction false} WithPriceMembers(s: seq<Product>, p: nat, x: Product)
    ensures x in WithPrice(s, p) <==> x in s && x.price == p
  {
    if s != [] {
      var u := s[..|s| - 1];
      WithPriceMembers(u, p, x);
      SplitLast(s);
      assert x in s <==> x in u || x == s[|s| - 1];
    }
  }

  /** Insert `x` after every element it does not belong before (the stable insertion step). */
  function Insert(order: SortOrder, t: seq<Product>, x: Product): (r: seq<Product>)
    ensures |r| == |t| + 1
  {
    if t == [] || Compare(order, t[|t| - 1], x) <= 0 then t + [x]
    else Insert(order, t[..|t| - 1], x) + [t[|t| - 1]]
  }

  /** The stably sorted copy of `s`. */
  function Sort(order: SortOrder, s: seq<Product>): (r: seq<Product>)
    ensures |r| == |s|
  {
    if s == [] then []
    else Insert(order, Sort(order, s[..|s| - 1]), s[|s| - 1])
  }

  /** Insertion adds exactly `x` to the elements. */
  lemma {:induction false} InsertPermutes(order: SortOrder, t: seq<Product>, x: Product)
    ensures multiset(Insert(order, t, x)) == multiset(t) + multiset{x}
  {
    if t != [] && Compare(order, t[|t| - 1], x) > 0 {
      var u := t[..|t| - 1];
      assert t == u + [t[|t| - 1]];
      InsertPermutes(order, u, x);
    }
  }

  /** The sorted copy is a permutation of the input. */
  lemma {:induction false} SortPermutes(order: SortOrder, s: seq<Product>)
    ensures multiset(Sort(order, s)) == multiset(s)
  {
    if s != [] {
      var u := s[..|s| - 1];
      assert s == u + [s[|s| - 1]];
      SortPermutes(order, u);
      InsertPermutes(order, Sort(order, u), s[|s| - 1]);
    }
  }

  lemma WithPriceAppend(s: seq<Product>, x: Product, p: nat)
    ensures WithPrice(s + [x], p) == WithPrice(s, p) + (if x.price == p then [x] else [])
  {
    assert (s + [x])[..|s|] == s;
  }

  /** Insertion adds nothing but `x`. */
  lemma {:induction false} InsertMembers(order: SortOrder, t: seq<Product>, x: Product, y: Product)
    requires y in Insert(order, t, x)
    ensures y in t || y == x
  {
    if t != [] && Compare(order, t[|t| - 1], x) > 0 {
      var u := t[..|t| - 1];
      if y in Insert(order, u, x) {
        InsertMembers(order, u, x, y);
        assert u == t[..|t| - 1];
      }
    }
  }

  /** Appending an element that belongs after every element keeps a sequence ordered. */
  lemma OrderedSnoc(order: SortOrder, v: seq<Product>, last: Product)
    requires Ordered(order, v)
    requires forall y :: y in v ==> Compare(order, y, last) <= 0
    ensures Ordered(order, v + [last])
  {
    var r := v + [last];
    forall i, j | 0 <= i < j < |r| ensures Compare(order, r[i], r[j]) <= 0 {
      assert r[i] == v[i];
      if j < |v| {
        assert r[j] == v[j];
      } else {
        assert v[i] in v;
      }
    }
  }

  /** Inserting into an ordered sequence keeps it ordered. */
  lemma {:induction false} InsertOrdered(order: SortOrder, t: seq<Product>, x: Product)
    requires Ordered(order, t)
    ensures Ordered(order, Insert(order, t, x))
  {
    if t == [] || Compare(order, t[|t| - 1], x) <= 0 {
      forall y | y in t ensures Compare(order, y, x) <= 0 {
        var i :| 0 <= i < |t| && t[i] == y;
        assert Compare(order, t[i], t[|t| - 1]) <= 0;
      }
      OrderedSnoc(order, t, x);
    } else {
      var u, last := t[..|t| - 1], t[|t| - 1];
      InsertOrdered(order, u, x);
      forall y | y in Insert(order, u, x) ensures Compare(order, y, last) <= 0 {
        InsertMembers(order, u, x, y);
        if y != x {
          var i :| 0 <= i < |u| && u[i] == y;
          assert t[i] == y;
        }
      }
      OrderedSnoc(order, Insert(order, u, x), last);
    }
  }

  /** Inserting `x` places it after every product of its own price. */
  lemma {:induction false} InsertStable(order: SortOrder, t: seq<Product>, x: Product, p: nat)
    ensures WithPrice(Insert(order, t, x), p) == WithPrice(t, p) + (if x.price == p then [x] else [])
  {
    if t == [] || Compare(order, t[|t| - 1], x) <= 0 {
      WithPriceAppend(t, x, p);
    } else {
      var u, last := t[..|t| - 1], t[|t| - 1];
      var v := Insert(order, u, x);
      SplitLast(t);
      var xs := if x.price == p then [x] else [];
      var ls := if last.price == p then [last] else [];
      assert last.price != x.price;
      assert xs + ls == ls + xs;
      calc {
        WithPrice(Insert(order, t, x), p);
        WithPrice(v + [last], p);
        { WithPriceAppend(v, last, p); }
        WithPrice(v, p) + ls;
        { InsertStable(order, u, x, p); }
        WithPrice(u, p) + xs + ls;
        WithPrice(u, p) + ls + xs;
        { WithPriceAppend(u, last, p); }
        WithPrice(t, p) + xs;
      }
    }
  }

  /** The sorted copy is ordered by the comparator. */
  lemma {:induction false} SortOrdered(order: SortOrder, s: seq<Product>)
    ensures Ordered(order, Sort(order, s))
  {
    if s != [] {
      SortOrdered(order, s[..|s| - 1]);
      InsertOrdered(order, Sort(order, s[..|s| - 1]), s[|s| - 1]);
    }
  }

  /** Stability: the products of each price appear in the sorted copy in their original order. */
  lemma {:induction false} SortStable(order: SortOrder, s: seq<Product>, p: nat)
    ensures WithPrice(Sort(order, s), p) == WithPrice(s, p)
  {
    if s != [] {
      var u, x := s[..|s| - 1], s[|s| - 1];
      SortStable(order, u, p);
      InsertStable(order, Sort(order, u), x, p);
      SplitLast(s);
      WithPriceAppend(u, x, p);
    }
  }

  /** Dropping the last element of an ordered sequence leaves it ordered. */
  lemma OrderedPrefix(order: SortOrder, s: seq<Product>)
    requires Ordered(order, s) && s != []
    ensures Ordered(order, s[..|s| - 1])
  {
  }

  /** Equal sequences with equal tails have equal heads. */
  lemma AppendCancel(x: seq<Product>, y: seq<Product>, e: seq<Product>)
    requires x + e == y + e
    ensures x == y
  {
    assert x == (x + e)[..|x|];
    assert y == (y + e)[..|y|];
  }

  /** Equal last prices and equal price classes force equal last elements and equal prefixes' classes. */
  lemma DropLastAgree(u1: seq<Product>, a: Product, u2: seq<Product>, b: Product)
    requires a.price == b.price
    requires forall p: nat :: WithPrice(u1 + [a], p) == WithPrice(u2 + [b], p)
    ensures a == b
    ensures forall p: nat :: WithPrice(u1, p) == WithPrice(u2, p)
  {
    var w1, w2 := WithPrice(u1, a.price), WithPrice(u2, a.price);
    WithPriceAppend(u1, a, a.price);
    WithPriceAppend(u2, b, a.price);
    assert w1 + [a] == w2 + [b];
    assert a == (w1 + [a])[|w1|] == (w2 + [b])[|w2|] == b;
    forall p: nat ensures WithPrice(u1, p) == WithPrice(u2, p) {
      WithPriceAppend(u1, a, p);
      WithPriceAppend(u2, b, p);
      AppendCancel(WithPrice(u1, p), WithPrice(u2, p), if a.price == p then [a] else []);
    }
  }

  /** The last element of a nonempty sequence is at or after every element it contains. */
  lemma OrderedLast(order: SortOrder, s: seq<Product>, y: Product)
    requires Ordered(order, s) && y in s
    ensures Compare(order, y, s[|s| - 1]) <= 0
  {
    var i :| 0 <= i < |s| && s[i] == y;
    if i < |s| - 1 {
      assert Compare(order, s[i], s[|s| - 1]) <= 0;
    }
  }

  /** The last element of a nonempty sequence is in its own price class. */
  lemma LastInClass(s: seq<Product>)
    requires s != []
    ensures s[|s| - 1] in WithPrice(s, s[|s| - 1].price)
  {
    var last := s[|s| - 1];
    assert WithPrice(s, last.price) == WithPrice(s[..|s| - 1], last.price) + [last];
  }

  /**
   Two ordered sequences that list every price's products alike are equal:
   ordering plus stability leaves no freedom.
   */
  lemma {:induction false} OrderedStableUnique(order: SortOrder, r1: seq<Product>, r2: seq<Product>)
    requires Ordered(order, r1) && Ordered(order, r2)
    requires forall p: nat :: WithPrice(r1, p) == WithPrice(r2, p)
    ensures r1 == r2
    decreases |r1| + |r2|
  {
    if r1 != [] && r2 == [] {
      LastInClass(r1);
    } else if r1 == [] && r2 != [] {
      LastInClass(r2);
    } else if r1 != [] {
      var u1, a := r1[..|r1| - 1], r1[|r1| - 1];
      var u2, b := r2[..|r2| - 1], r2[|r2| - 1];
      LastInClass(r1);
      LastInClass(r2);
      assert a in WithPrice(r2, a.price);
      WithPriceMembers(r2, a.price, a);
      OrderedLast(order, r2, a);
      assert b in WithPrice(r1, b.price);
      WithPriceMembers(r1, b.price, b);
      OrderedLast(order, r1, b);
      SplitLast(r1);
      SplitLast(r2);
      DropLastAgree(u1, a, u2, b);
      OrderedPrefix(order, r1);
      OrderedPrefix(order, r2);
      OrderedStableUnique(order, u1, u2);
    }
  }

  /** Any ordered rearrangement of `s` that keeps equal prices in order is `Sort(order, s)`. */
  lemma SortIsUnique(order: SortOrder, s: seq<Product>, r: seq<Product>)
    requires Ordered(order, r)
    requires forall p: nat :: WithPrice(r, p) == WithPrice(s, p)
    ensures r == Sort(order, s)
  {
    SortOrdered(order, s);
    forall p: nat ensures WithPrice(r, p) == WithPrice(Sort(order, s), p) {
      SortStable(order, s, p);
    }
    OrderedStableUnique(order, r, Sort(order, s));
  }

  /**
   `Insert` puts `x` at the gap `j` when everything from `j` on belongs after `x`
   and the element before the gap does not.
   */
  lemma {:induction false} InsertAtGap(order: SortOrder, t: seq<Product>, x: Product, j: nat)
    requires j <= |t|
    requires forall k :: j <= k < |t| ==> Compare(order, t[k], x) > 0
    requires j == 0 || Compare(order, t[j - 1], x) <= 0
    ensures Insert(order, t, x) == t[..j] + [x] + t[j..]
    decreases |t|
  {
    if j == |t| {
      assert t[..j] == t && t[j..] == [];
    } else {
      var u, last := t[..|t| - 1], t[|t| - 1];
      InsertAtGap(order, u, x, j);
      assert u[..j] == t[..j];
      assert u[j..] + [last] == t[j..];
    }
  }

  /** The array after the insertion loop: the prefix, then `x`, then the shifted rest. */
  lemma ShiftedInsert(a: seq<Product>, t: seq<Product>, x: Product, j: nat)
    requires j <= |t| < |a| && a[j] == x
    requires forall k :: 0 <= k < j ==> a[k] == t[k]
    requires forall k :: j < k <= |t| ==> a[k] == t[k - 1]
    ensures a[..|t| + 1] == t[..j] + [x] + t[j..]
  {
  }

  /** Sorting one more element inserts it into the sorted prefix. */
  lemma SortSnoc(order: SortOrder, s: seq<Product>, i: nat)
    requires i < |s|
    ensures Sort(order, s[..i + 1]) == Insert(order, Sort(order, s[..i]), s[i])
  {
    assert s[..i + 1][..i] == s[..i];
  }

  /**
   The shifting loop of the insertion: moves the elements of `a[..i]` that belong
   after `x` one place right and returns the gap `j` where `x` goes.
   */
  method ShiftRight(a: array<Product>, i: nat, ghost t: seq<Product>, x: Product, order: SortOrder)
    returns (j: nat)
    requires i < a.Length && t == a[..i]
    modifies a
    ensures j <= i
    ensures forall k :: 0 <= k < j ==> a[k] == t[k]
    ensures forall k :: j < k <= i ==> a[k] == t[k - 1]
    ensures forall k :: i < k < a.Length ==> a[k] == old(a[k])
    ensures forall k :: j <= k < i ==> Compare(order, t[k], x) > 0
    ensures j == 0 || Compare(order, t[j - 1], x) <= 0
  {
    j := i;
    while j > 0 && Compare(order, a[j - 1], x) > 0
      invariant 0 <= j <= i
      invariant forall k :: 0 <= k < j ==> a[k] == t[k]
      invariant forall k :: j < k <= i ==> a[k] == t[k - 1]
      invariant forall k :: i < k < a.Length ==> a[k] == old(a[k])
      invariant forall k :: j <= k < i ==> Compare(order, t[k], x) > 0
    {
      assert a[j - 1] == t[j - 1];
      a[j] := a[j - 1];
      j := j - 1;
    }
  }

  /** Inserts `a[i]` into the sorted prefix `a[..i]`, shifting larger elements one place right. */
  method InsertAt(a: array<Product>, i: nat, order: SortOrder)
    requires i < a.Length
    modifies a
    ensures a[..i + 1] == Insert(order, old(a[..i]), old(a[i]))
    ensures forall k :: i < k < a.Length ==> a[k] == old(a[k])
  {
    ghost var t := a[..i];
    var x := a[i];
    var j := ShiftRight(a, i, t, x, order);
    a[j] := x;
    ShiftedInsert(a[..], t, x, j);
    InsertAtGap(order, t, x, j);
    assert a[..i + 1] == a[..][..i + 1];
  }

  /** `filtered.sort(comparator)`: sorts the array in place to the stably sorted copy. */
  method SortInPlace(a: array<Product>, order: SortOrder)
    modifies a
    ensures a[..] == Sort(order, old(a[..]))
  {
    ghost var s := a[..];
    var i := 0;
    while i < a.Length
      invariant 0 <= i <= a.Length
      invariant a[..i] == Sort(order, s[..i])
      invariant forall k :: i <= k < a.Length ==> a[k] == s[k]
    {
      InsertAt(a, i, order);
      SortSnoc(order, s, i);
      i := i + 1;
    }
    assert s[..a.Length] == s;
  }
}
