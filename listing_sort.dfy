/** The sort stage of the home page query: `filtered.sort(comparator)` with
    one of four comparators picked by the sort-by string, or no sort at all.

    The array sort the page relies on is stable, so it is modelled as an
    in-place insertion sort over the comparator; the functions below give
    the sorted sequence it must produce, and the lemmas say that this
    sequence is ordered, is a permutation of the input, and keeps listings
    the comparator calls equal in their incoming order. */
module ListingSort {
  import opened PgData

  datatype Option<T> = None | Some(value: T)

  /** The four orders the sort-by select offers besides "recommended". */
  datatype Order = PriceLow | PriceHigh | Rating | Newest

  /** The `switch (sortBy)`: one of the four keys picks an order; every other
      string, "recommended" included, leaves the filtered order alone. */
  function ParseSortBy(sortBy: string): (o: Option<Order>)
    ensures o == None <==> sortBy !in ["price-low", "price-high", "rating", "newest"]
    ensures o == Some(PriceLow) <==> sortBy == "price-low"
    ensures o == Some(PriceHigh) <==> sortBy == "price-high"
    ensures o == Some(Rating) <==> sortBy == "rating"
    ensures o == Some(Newest) <==> sortBy == "newest"
  {
    if sortBy == "price-low" then Some(PriceLow)
    else if sortBy == "price-high" then Some(PriceHigh)
    else if sortBy == "rating" then Some(Rating)
    else if sortBy == "newest" then Some(Newest)
    else None
  }

  /** The comparator handed to `sort`: negative puts `a` first, positive puts `b` first. */
  function Compare(o: Order, a: Listing, b: Listing): int {
    match o
    case PriceLow => a.price - b.price
    case PriceHigh => b.price - a.price
    case Rating => b.rating - a.rating
    case Newest => DayOrdinal(b.availableFrom) - DayOrdinal(a.availableFrom)
  }

  /** The place a listing takes under an order: smaller ranks come first. */
  function Rank(o: Order, pg: Listing): int {
    match o
    case PriceLow => pg.price
    case PriceHigh => -pg.price
    case Rating => -pg.rating
    case Newest => -DayOrdinal(pg.availableFrom)
  }

  /** The rank as a key function, the form the sort functions below take. */
  function RankOf(o: Order): Listing -> int {
    pg => Rank(o, pg)
  }

  /** Every comparator is the difference of the ranks, so it is a total preorder. */
  lemma CompareIsRankDifference(o: Order, a: Listing, b: Listing)
    ensures Compare(o, a, b) == RankOf(o)(a) - RankOf(o)(b)
  {
  }

  predicate Sorted<T>(key: T -> int, s: seq<T>) {
    forall i, j :: 0 <= i < j < |s| ==> key(s[i]) <= key(s[j])
  }

  /** The elements of `s` whose key is `r`, in their order in `s`. */
  function WithKey<T>(key: T -> int, s: seq<T>, r: int): seq<T> {
    if s == [] then []
    else WithKey(key, s[..|s| - 1], r) + (if key(s[|s| - 1]) == r then [s[|s| - 1]] else [])
  }

  /** Stability: elements of equal key appear in the same relative order. */
  ghost predicate SameOrderAmongEquals<T>(key: T -> int, s: seq<T>, t: seq<T>) {
    forall r :: WithKey(key, s, r) == WithKey(key, t, r)
  }

  /** One insertion step: `x` moves left past the elements whose key is greater
      than its own and stops behind the first that is not. */
  function Insert<T>(key: T -> int, t: seq<T>, x: T): (r: seq<T>)
    ensures |r| == |t| + 1
  {
    if t == [] then [x]
    else if key(t[|t| - 1]) > key(x) then
      Insert(key, t[..|t| - 1], x) + [t[|t| - 1]]
    else t + [x]
  }

  /** The order the stable sort produces: insert each element, left to right. */
  function InsertionSort<T>(key: T -> int, s: seq<T>): (r: seq<T>)
    ensures |r| == |s|
  {
    if s == [] then []
    else Insert(key, InsertionSort(key, s[..|s| - 1]), s[|s| - 1])
  }

  lemma {:induction false} InsertPermutes<T>(key: T -> int, t: seq<T>, x: T)
    ensures multiset(Insert(key, t, x)) == multiset(t) + multiset{x}
  {
    if t != [] && key(t[|t| - 1]) > key(x) {
      InsertPermutes(key, t[..|t| - 1], x);
      assert t == t[..|t| - 1] + [t[|t| - 1]];
    }
  }

  /** The sort neither loses nor invents an element. */
  lemma {:induction false} InsertionSortPermutes<T>(key: T -> int, s: seq<T>)
    ensures multiset(InsertionSort(key, s)) == multiset(s)
  {
    if s != [] {
      InsertionSortPermutes(key, s[..|s| - 1]);
      InsertPermutes(key, InsertionSort(key, s[..|s| - 1]), s[|s| - 1]);
      assert s == s[..|s| - 1] + [s[|s| - 1]];
    }
  }

  lemma {:induction false} InsertSorted<T>(key: T -> int, t: seq<T>, x: T)
    requires Sorted(key, t)
    ensures Sorted(key, Insert(key, t, x))
  {
    if t != [] && key(t[|t| - 1]) > key(x) {
      var init, last := t[..|t| - 1], t[|t| - 1];
      InsertSorted(key, init, x);
      var u := Insert(key, init, x);
      InsertPermutes(key, init, x);
      forall k | 0 <= k < |u| ensures key(u[k]) <= key(last) {
        assert u[k] in multiset(u);
        if u[k] != x {
          assert u[k] in multiset(init);
          var m :| 0 <= m < |init| && init[m] == u[k];
          assert t[m] == u[k];
        }
      }
      assert Insert(key, t, x) == u + [last];
    }
  }

  lemma {:induction false} InsertionSortSorted<T>(key: T -> int, s: seq<T>)
    ensures Sorted(key, InsertionSort(key, s))
  {
    if s != [] {
      InsertionSortSorted(key, s[..|s| - 1]);
      InsertSorted(key, InsertionSort(key, s[..|s| - 1]), s[|s| - 1]);
    }
  }

  lemma {:induction false} WithKeyAppend<T>(key: T -> int, a: seq<T>, b: seq<T>, r: int)
    ensures WithKey(key, a + b, r) == WithKey(key, a, r) + WithKey(key, b, r)
  {
    if b != [] {
      var init := b[..|b| - 1];
      assert (a + b)[..|a + b| - 1] == a + init;
      WithKeyAppend(key, a, init, r);
    } else {
      assert a + b == a;
    }
  }

  /** Inserting `x` changes the key-`r` subsequence only by putting `x` at its end. */
  lemma {:induction false} InsertWithKey<T>(key: T -> int, t: seq<T>, x: T, r: int)
    ensures WithKey(key, Insert(key, t, x), r) == WithKey(key, t, r) + WithKey(key, [x], r)
  {
    if t == [] {
      assert Insert(key, t, x) == [x];
    } else if key(t[|t| - 1]) > key(x) {
      var init, last := t[..|t| - 1], t[|t| - 1];
      InsertWithKey(key, init, x, r);
      InsertPastLast(key, t, x, r);
      WithKeySplitLast(key, t, r);
      WithKeyOfOne(key, x, r);
      WithKeyOfOne(key, last, r);
      if key(x) == r {
        assert WithKey(key, [last], r) == [];
      } else {
        assert WithKey(key, [x], r) == [];
      }
    } else {
      assert Insert(key, t, x) == t + [x];
      WithKeyAppend(key, t, [x], r);
    }
  }

  /** When `x` moves past the last element, that element closes the result. */
  lemma InsertPastLast<T>(key: T -> int, t: seq<T>, x: T, r: int)
    requires t != [] && key(t[|t| - 1]) > key(x)
    ensures WithKey(key, Insert(key, t, x), r) ==
      WithKey(key, Insert(key, t[..|t| - 1], x), r) + WithKey(key, [t[|t| - 1]], r)
  {
    var init, last := t[..|t| - 1], t[|t| - 1];
    assert Insert(key, t, x) == Insert(key, init, x) + [last];
    WithKeyAppend(key, Insert(key, init, x), [last], r);
  }

  lemma WithKeySplitLast<T>(key: T -> int, t: seq<T>, r: int)
    requires t != []
    ensures WithKey(key, t, r) == WithKey(key, t[..|t| - 1], r) + WithKey(key, [t[|t| - 1]], r)
  {
    WithKeyAppend(key, t[..|t| - 1], [t[|t| - 1]], r);
    assert t[..|t| - 1] + [t[|t| - 1]] == t;
  }

  lemma WithKeyOfOne<T>(key: T -> int, x: T, r: int)
    ensures WithKey(key, [x], r) == if key(x) == r then [x] else []
  {
    assert [x][..0] == [];
  }

  lemma {:induction false} InsertionSortStable<T>(key: T -> int, s: seq<T>)
    ensures SameOrderAmongEquals(key, InsertionSort(key, s), s)
  {
    if s != [] {
      var init, last := s[..|s| - 1], s[|s| - 1];
      InsertionSortStable(key, init);
      forall r ensures WithKey(key, InsertionSort(key, s), r) == WithKey(key, s, r) {
        InsertWithKey(key, InsertionSort(key, init), last, r);
        WithKeyAppend(key, init, [last], r);
        assert init + [last] == s;
      }
    }
  }

  /** Where `Insert` puts `x`: behind the last element whose key is not greater,
      ahead of the run of greater keys that ends the sequence. */
  lemma {:induction false} InsertAt<T>(key: T -> int, t: seq<T>, x: T, j: nat)
    requires j <= |t|
    requires j == 0 || key(t[j - 1]) <= key(x)
    requires forall k :: j <= k < |t| ==> key(t[k]) > key(x)
    ensures Insert(key, t, x) == t[..j] + [x] + t[j..]
    decreases |t| - j
  {
    if j < |t| {
      var init, last := t[..|t| - 1], t[|t| - 1];
      assert init[..j] == t[..j] && (j > 0 ==> init[j - 1] == t[j - 1]);
      InsertAt(key, init, x, j);
      assert t[j..] == init[j..] + [last];
    } else if j > 0 {
      assert t[..j] == t;
    }
  }

  predicate StrictlySorted<T>(key: T -> int, s: seq<T>) {
    forall i, j :: 0 <= i < j < |s| ==> key(s[i]) < key(s[j])
  }

  predicate Distinct<T(==)>(s: seq<T>) {
    forall i, j :: 0 <= i < j < |s| ==> s[i] != s[j]
  }

  lemma {:induction false} DistinctCounts<T>(s: seq<T>)
    requires Distinct(s)
    ensures forall x :: multiset(s)[x] <= 1
  {
    if s != [] {
      var n := |s| - 1;
      assert Distinct(s[..n]);
      DistinctCounts(s[..n]);
      assert s == s[..n] + [s[n]];
      assert s[n] !in multiset(s[..n]);
    }
  }

  lemma RepeatCounts<T>(s: seq<T>, i: nat, j: nat)
    requires i < j < |s| && s[i] == s[j]
    ensures multiset(s)[s[i]] >= 2
  {
    assert s == s[..j] + s[j..];
    assert s[i] in s[..j] && s[j] in s[j..];
  }

  /** The sort of a sequence without repetitions has none either. */
  lemma InsertionSortDistinct<T>(key: T -> int, s: seq<T>)
    requires Distinct(s)
    ensures Distinct(InsertionSort(key, s))
  {
    var r := InsertionSort(key, s);
    InsertionSortPermutes(key, s);
    DistinctCounts(s);
    forall i, j | 0 <= i < j < |r| ensures r[i] != r[j] {
      if r[i] == r[j] {
        RepeatCounts(r, i, j);
      }
    }
  }

  /** With all keys different there is only one sorted arrangement of a set of
      elements: a strictly sorted sequence equals every sorted sequence without
      repetitions that has the same members. */
  lemma {:induction false} StrictlySortedUnique<T>(key: T -> int, a: seq<T>, b: seq<T>)
    requires StrictlySorted(key, a) && Sorted(key, b) && Distinct(b)
    requires forall z :: z in a <==> z in b
    ensures a == b
    decreases |a| + |b|
  {
    if a == [] || b == [] {
      NoMembers(a);
      NoMembers(b);
    } else {
      var n, m := |a| - 1, |b| - 1;
      SameLast(key, a, b);
      forall z ensures z in a[..n] <==> z in b[..m] {
        if z in a[..n] {
          var k :| 0 <= k < n && a[k] == z;
          assert z in b && z != b[m];
        }
        if z in b[..m] {
          var k :| 0 <= k < m && b[k] == z;
          assert z in a && z != a[n];
        }
      }
      StrictlySortedUnique(key, a[..n], b[..m]);
      assert a == a[..n] + [a[n]] && b == b[..m] + [b[m]];
    }
  }

  lemma NoMembers<T>(s: seq<T>)
    ensures s == [] <==> forall z :: z !in s
  {
    if s != [] {
      assert s[0] in s;
    }
  }

  lemma SameLast<T>(key: T -> int, a: seq<T>, b: seq<T>)
    requires StrictlySorted(key, a) && Sorted(key, b)
    requires forall z :: z in a <==> z in b
    requires a != [] && b != []
    ensures a[|a| - 1] == b[|b| - 1]
  {
    var x, y := a[|a| - 1], b[|b| - 1];
    assert y in b && x in a;
    var k :| 0 <= k < |a| && a[k] == y;
    var m :| 0 <= m < |b| && b[m] == x;
    assert key(x) <= key(y);
    assert k == |a| - 1;
  }

  /** So the insertion sort of a sequence without repetitions is the strictly
      sorted sequence of its members, whenever there is one. */
  lemma InsertionSortIsStrictArrangement<T>(key: T -> int, s: seq<T>, t: seq<T>)
    requires Distinct(s) && StrictlySorted(key, t)
    requires forall z :: z in t <==> z in s
    ensures InsertionSort(key, s) == t
  {
    var r := InsertionSort(key, s);
    InsertionSortSorted(key, s);
    InsertionSortPermutes(key, s);
    InsertionSortDistinct(key, s);
    forall z ensures z in t <==> z in r {
      assert z in r <==> z in multiset(r);
    }
    StrictlySortedUnique(key, t, r);
  }

  /** A comparator that orders by a key: negative, zero or positive as the key is smaller, equal or greater. */
  ghost predicate ComparesByKey<T(!new)>(cmp: (T, T) -> int, key: T -> int) {
    forall p, q :: cmp(p, q) == key(p) - key(q)
  }

  /** One pass of the insertion sort: `a[i]` moves left into the sorted prefix `a[..i]`. */
  method InsertIntoPrefix<T(!new)>(a: array<T>, i: nat, cmp: (T, T) -> int, ghost key: T -> int)
    requires i < a.Length
    requires ComparesByKey(cmp, key)
    modifies a
    ensures a[..i + 1] == Insert(key, old(a[..i]), old(a[i]))
    ensures forall k :: i < k < a.Length ==> a[k] == old(a[k])
  {
    ghost var t := a[..i];
    var x := a[i];
    var j := i;
    while j > 0 && cmp(a[j - 1], x) > 0
      invariant 0 <= j <= i
      invariant forall k :: 0 <= k < j ==> a[k] == t[k]
      invariant forall k :: j < k <= i ==> a[k] == t[k - 1]
      invariant forall k :: i < k < a.Length ==> a[k] == old(a[k])
      invariant forall k :: j <= k < i ==> key(t[k]) > key(x)
    {
      a[j] := a[j - 1];
      j := j - 1;
    }
    InsertAt(key, t, x, j);
    a[j] := x;
    assert a[..j] == t[..j];
    assert a[j + 1..i + 1] == t[j..];
    assert a[..i + 1] == a[..j] + [a[j]] + a[j + 1..i + 1];
  }

  /** `array.sort(cmp)` for a comparator that orders by a key: an insertion sort,
      which keeps elements of equal key in their incoming order. */
  method SortInPlace<T(!new)>(a: array<T>, cmp: (T, T) -> int, ghost key: T -> int)
    requires ComparesByKey(cmp, key)
    modifies a
    ensures a[..] == InsertionSort(key, old(a[..]))
  {
    ghost var s := a[..];
    var i := 0;
    while i < a.Length
      invariant 0 <= i <= a.Length
      invariant a[..i] == InsertionSort(key, s[..i])
      invariant forall k :: i <= k < a.Length ==> a[k] == s[k]
    {
      assert a[..i] == InsertionSort(key, s[..i]) && a[i] == s[i];
      InsertIntoPrefix(a, i, cmp, key);
      SortStep(key, s, i);
      i := i + 1;
    }
    assert a[..] == a[..a.Length] && s == s[..a.Length];
  }

  lemma SortStep<T>(key: T -> int, s: seq<T>, i: nat)
    requires i < |s|
    ensures InsertionSort(key, s[..i + 1]) == Insert(key, InsertionSort(key, s[..i]), s[i])
  {
    assert s[..i + 1][..i] == s[..i] && s[..i + 1][i] == s[i];
  }

  /** `filtered.sort(comparator)` with the comparator the sort order selects. */
  method SortListings(a: array<Listing>, o: Order)
    modifies a
    ensures a[..] == InsertionSort(RankOf(o), old(a[..]))
  {
    var cmp := (p: Listing, q: Listing) => Compare(o, p, q);
    forall p, q ensures cmp(p, q) == RankOf(o)(p) - RankOf(o)(q) {
      CompareIsRankDifference(o, p, q);
    }
    SortInPlace(a, cmp, RankOf(o));
  }
}
