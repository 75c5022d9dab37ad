/** The listing query of the home page: the six-part filter over the listing
    records, the sort the sort-by select picks, the active-filter badge and
    the page state that feeds them (`searchQuery`, `sortBy`, `filters`). */
module HomePage {
  import opened PgData
  import opened FilterSidebar
  import opened ListingSort

  /** `toLowerCase` on one character, for the ASCII letters. */
  function LowerChar(c: char): (d: char)
    ensures !('A' <= d <= 'Z')
    ensures !('A' <= c <= 'Z') ==> d == c
    ensures 'A' <= c <= 'Z' ==> 'a' <= d <= 'z' && d as int - c as int == 'a' as int - 'A' as int
  {
    if 'A' <= c <= 'Z' then (c as int - 'A' as int + 'a' as int) as char else c
  }

  function ToLower(s: string): (r: string)
    ensures |r| == |s|
    ensures forall i :: 0 <= i < |s| ==> r[i] == LowerChar(s[i])
  {
    if s == [] then [] else [LowerChar(s[0])] + ToLower(s[1..])
  }

  /** Lowercasing twice is lowercasing once. */
  lemma ToLowerIdempotent(s: string)
    ensures ToLower(ToLower(s)) == ToLower(s)
  {
  }

  /** `s.includes(needle)`: `needle` starts at the first position or somewhere after it. */
  predicate Includes(s: string, needle: string) {
    (|needle| <= |s| && s[..|needle|] == needle)
    || (s != [] && Includes(s[1..], needle))
  }

  /** `needle` occurs in `s` starting at position `i`. */
  predicate OccursAt(s: string, needle: string, i: int) {
    0 <= i && i + |needle| <= |s| && s[i..i + |needle|] == needle
  }

  /** `Includes` holds exactly when `needle` occurs somewhere in `s`. */
  lemma {:induction false} IncludesIffOccurs(s: string, needle: string)
    ensures Includes(s, needle) <==> exists i :: OccursAt(s, needle, i)
  {
    if s == [] {
      if exists i :: OccursAt(s, needle, i) {
        var i :| OccursAt(s, needle, i);
        assert s[..|needle|] == needle;
      }
      if Includes(s, needle) {
        assert OccursAt(s, needle, 0);
      }
    } else {
      IncludesIffOccurs(s[1..], needle);
      if exists i :: OccursAt(s, needle, i) {
        var i :| OccursAt(s, needle, i);
        if i > 0 {
          assert s[1..][i - 1..i - 1 + |needle|] == s[i..i + |needle|];
          assert OccursAt(s[1..], needle, i - 1);
        }
      }
      if Includes(s[1..], needle) {
        var i :| OccursAt(s[1..], needle, i);
        assert s[i + 1..i + 1 + |needle|] == s[1..][i..i + |needle|];
        assert OccursAt(s, needle, i + 1);
      }
      if |needle| <= |s| && s[..|needle|] == needle {
        assert OccursAt(s, needle, 0);
      }
    }
  }

  /** The empty string occurs in every string. */
  lemma IncludesEmpty(s: string)
    ensures Includes(s, "")
  {
  }

  /** The three fields the search box looks in. */
  function SearchedFields(pg: Listing): seq<string> {
    [pg.name, pg.location, pg.city]
  }

  /** Text search: an empty query matches everything; otherwise the lowercased
      query must occur in the lowercased name, location or city. */
  predicate SearchMatch(q: string, pg: Listing) {
    q == "" || exists text :: text in SearchedFields(pg) && Includes(ToLower(text), ToLower(q))
  }

  /** Lowercasing distributes over concatenation. */
  lemma ToLowerAppend(a: string, b: string)
    ensures ToLower(a + b) == ToLower(a) + ToLower(b)
  {
  }

  /** A string occurs in itself. */
  lemma IncludesSelf(s: string)
    ensures Includes(s, s)
  {
    assert s[..|s|] == s;
  }

  /** A one-character needle occurs exactly when the character does. */
  lemma IncludesChar(s: string, c: char)
    ensures Includes(s, [c]) <==> c in s
  {
    IncludesIffOccurs(s, [c]);
    if c in s {
      var i :| 0 <= i < |s| && s[i] == c;
      assert s[i..i + 1] == [c];
      assert OccursAt(s, [c], i);
    }
    if Includes(s, [c]) {
      var i :| OccursAt(s, [c], i);
      assert s[i] == s[i..i + 1][0];
    }
  }

  /** Where a needle occurs, so does each of its prefixes. */
  lemma IncludesPrefix(s: string, needle: string, more: string)
    requires Includes(s, needle + more)
    ensures Includes(s, needle)
  {
    IncludesIffOccurs(s, needle + more);
    IncludesIffOccurs(s, needle);
    var i :| OccursAt(s, needle + more, i);
    assert s[i..i + |needle|] == (needle + more)[..|needle|] == needle;
    assert OccursAt(s, needle, i);
  }

  /** The search ignores the case of the query. */
  lemma SearchIgnoresCase(q: string, pg: Listing)
    ensures SearchMatch(q, pg) <==> SearchMatch(ToLower(q), pg)
  {
    ToLowerIdempotent(q);
  }

  /** Typing more characters can only narrow the search. */
  lemma SearchNarrows(q: string, more: string, pg: Listing)
    requires SearchMatch(q + more, pg)
    ensures SearchMatch(q, pg)
  {
    if q != "" {
      ToLowerAppend(q, more);
      var text :| text in SearchedFields(pg) && Includes(ToLower(text), ToLower(q + more));
      IncludesPrefix(ToLower(text), ToLower(q), ToLower(more));
    }
  }

  /** A query that spells the city, in any case, finds the listing. */
  lemma SearchFindsCity(q: string, pg: Listing)
    requires ToLower(q) == ToLower(pg.city)
    ensures SearchMatch(q, pg)
  {
    IncludesSelf(ToLower(pg.city));
    assert pg.city in SearchedFields(pg);
  }

  /** A one-character query matches exactly when that character, lowercased,
      appears in a lowercased searched field. The query is not trimmed, so a
      single space keeps only the listings with a space in one of the fields. */
  lemma SearchOneChar(c: char, pg: Listing)
    ensures SearchMatch([c], pg) <==>
      exists text :: text in SearchedFields(pg) && LowerChar(c) in ToLower(text)
  {
    assert ToLower([c]) == [LowerChar(c)];
    forall text | text in SearchedFields(pg)
      ensures Includes(ToLower(text), [LowerChar(c)]) <==> LowerChar(c) in ToLower(text)
    {
      IncludesChar(ToLower(text), LowerChar(c));
    }
  }

  /** The price window, inclusive at both ends. */
  predicate PriceMatch(f: FilterOptions, pg: Listing) {
    f.priceRange.0 <= pg.price && pg.price <= f.priceRange.1
  }

  predicate CityMatch(f: FilterOptions, pg: Listing) {
    |f.cities| == 0 || pg.city in f.cities
  }

  predicate GenderMatch(f: FilterOptions, pg: Listing) {
    |f.genderPreference| == 0 || GenderName(pg.genderPreference) in f.genderPreference
  }

  /** Every selected amenity is offered. */
  predicate AmenitiesMatch(f: FilterOptions, pg: Listing) {
    |f.amenities| == 0 || forall a :: a in f.amenities ==> a in pg.amenities
  }

  /** Some selected room type has an offering with a free place. */
  predicate OffersAvailable(pg: Listing, roomType: string) {
    exists o :: o in pg.roomTypes && o.roomType == roomType && o.available
  }

  predicate RoomTypesMatch(f: FilterOptions, pg: Listing) {
    |f.roomTypes| == 0 || exists t :: t in f.roomTypes && OffersAvailable(pg, t)
  }

  /** The filter callback: all six tests together. */
  predicate Keep(q: string, f: FilterOptions, pg: Listing) {
    SearchMatch(q, pg) && PriceMatch(f, pg) && CityMatch(f, pg)
    && GenderMatch(f, pg) && AmenitiesMatch(f, pg) && RoomTypesMatch(f, pg)
  }

  /** `records.filter(...)`: the records that pass, in their original order. */
  function FilterListings(records: seq<Listing>, q: string, f: FilterOptions): (r: seq<Listing>)
    ensures |r| <= |records|
    ensures forall pg :: pg in r <==> pg in records && Keep(q, f, pg)
  {
    if records == [] then []
    else
      (if Keep(q, f, records[0]) then [records[0]] else [])
      + FilterListings(records[1..], q, f)
  }

  /** The filter keeps the relative order: it distributes over concatenation. */
  lemma {:induction false} FilterAppend(a: seq<Listing>, b: seq<Listing>, q: string, f: FilterOptions)
    ensures FilterListings(a + b, q, f) == FilterListings(a, q, f) + FilterListings(b, q, f)
  {
    if a == [] {
      assert a + b == b;
    } else {
      assert (a + b)[1..] == a[1..] + b;
      FilterAppend(a[1..], b, q, f);
    }
  }

  /** Each record appears in the result as often as in the input when it passes, and never when it fails. */
  lemma {:induction false} FilterCounts(records: seq<Listing>, q: string, f: FilterOptions)
    ensures forall pg ::
      multiset(FilterListings(records, q, f))[pg] == (if Keep(q, f, pg) then multiset(records)[pg] else 0)
  {
    if records != [] {
      FilterCounts(records[1..], q, f);
      assert records == [records[0]] + records[1..];
    }
  }

  /** When every record passes, the filter returns the records unchanged. */
  lemma {:induction false} FilterAllKept(records: seq<Listing>, q: string, f: FilterOptions)
    requires forall pg :: pg in records ==> Keep(q, f, pg)
    ensures FilterListings(records, q, f) == records
  {
    if records != [] {
      FilterAllKept(records[1..], q, f);
      assert records == [records[0]] + records[1..];
    }
  }

  /** An inverted price window lets nothing through. */
  lemma InvertedPriceWindow(records: seq<Listing>, q: string, f: FilterOptions)
    requires f.priceRange.0 > f.priceRange.1
    ensures FilterListings(records, q, f) == []
  {
  }

  /** With an empty query and every list empty, only the price window decides. */
  lemma EmptySelectionsOnlyPrice(q: string, f: FilterOptions, pg: Listing)
    requires q == "" && f.cities == [] && f.genderPreference == [] && f.amenities == [] && f.roomTypes == []
    ensures Keep(q, f, pg) <==> f.priceRange.0 <= pg.price <= f.priceRange.1
  {
  }

  /** Selecting more amenities can only narrow the result (all must be present). */
  lemma AmenitiesNarrow(f: FilterOptions, extra: string, pg: Listing)
    requires |f.amenities| > 0
    ensures AmenitiesMatch(f.(amenities := f.amenities + [extra]), pg)
      <==> AmenitiesMatch(f, pg) && extra in pg.amenities
  {
    var g := f.(amenities := f.amenities + [extra]);
    if AmenitiesMatch(g, pg) {
      assert extra in g.amenities;
    }
  }

  /** Selecting more room types can only widen the result (one is enough). */
  lemma RoomTypesWiden(f: FilterOptions, extra: string, pg: Listing)
    requires |f.roomTypes| > 0
    ensures RoomTypesMatch(f.(roomTypes := f.roomTypes + [extra]), pg)
      <==> RoomTypesMatch(f, pg) || OffersAvailable(pg, extra)
  {
    var g := f.(roomTypes := f.roomTypes + [extra]);
    if OffersAvailable(pg, extra) {
      assert extra in g.roomTypes;
    }
    if RoomTypesMatch(f, pg) {
      var t :| t in f.roomTypes && OffersAvailable(pg, t);
      assert t in g.roomTypes;
    }
  }

  /** `filteredAndSortedPGs`: filter, then sort by the order the key names, if any. */
  function Query(records: seq<Listing>, q: string, f: FilterOptions, sortBy: string): (r: seq<Listing>)
    ensures multiset(r) == multiset(FilterListings(records, q, f))
    ensures |r| <= |records|
  {
    var filtered := FilterListings(records, q, f);
    match ParseSortBy(sortBy)
    case None => filtered
    case Some(o) =>
      InsertionSortPermutes(RankOf(o), filtered);
      InsertionSort(RankOf(o), filtered)
  }

  /** A listing is in the result exactly when it is a record that passes the filter. */
  lemma QueryMembers(records: seq<Listing>, q: string, f: FilterOptions, sortBy: string)
    ensures forall pg :: pg in Query(records, q, f, sortBy) <==> pg in records && Keep(q, f, pg)
  {
    var filtered := FilterListings(records, q, f);
    if o :| ParseSortBy(sortBy) == Some(o) {
      InsertionSortPermutes(RankOf(o), filtered);
      forall pg ensures pg in Query(records, q, f, sortBy) <==> pg in filtered {
        assert pg in multiset(Query(records, q, f, sortBy)) <==> pg in multiset(filtered);
      }
    }
  }

  /** "recommended", or any key the switch does not know, keeps the filtered order. */
  lemma QueryUnsorted(records: seq<Listing>, q: string, f: FilterOptions, sortBy: string)
    requires sortBy !in ["price-low", "price-high", "rating", "newest"]
    ensures Query(records, q, f, sortBy) == FilterListings(records, q, f)
  {
  }

  /** Listings the comparator calls equal keep their filtered order. */
  lemma QueryStable(records: seq<Listing>, q: string, f: FilterOptions, sortBy: string, o: Order)
    requires ParseSortBy(sortBy) == Some(o)
    ensures SameOrderAmongEquals(RankOf(o), Query(records, q, f, sortBy), FilterListings(records, q, f))
  {
    InsertionSortStable(RankOf(o), FilterListings(records, q, f));
  }

  lemma QuerySortedByRank(records: seq<Listing>, q: string, f: FilterOptions, sortBy: string, o: Order)
    requires ParseSortBy(sortBy) == Some(o)
    ensures forall i, j :: 0 <= i < j < |Query(records, q, f, sortBy)| ==>
      Rank(o, Query(records, q, f, sortBy)[i]) <= Rank(o, Query(records, q, f, sortBy)[j])
  {
    InsertionSortSorted(RankOf(o), FilterListings(records, q, f));
  }

  lemma QueryPriceLow(records: seq<Listing>, q: string, f: FilterOptions)
    ensures forall i, j :: 0 <= i < j < |Query(records, q, f, "price-low")| ==>
      Query(records, q, f, "price-low")[i].price <= Query(records, q, f, "price-low")[j].price
  {
    QuerySortedByRank(records, q, f, "price-low", PriceLow);
  }

  lemma QueryPriceHigh(records: seq<Listing>, q: string, f: FilterOptions)
    ensures forall i, j :: 0 <= i < j < |Query(records, q, f, "price-high")| ==>
      Query(records, q, f, "price-high")[i].price >= Query(records, q, f, "price-high")[j].price
  {
    QuerySortedByRank(records, q, f, "price-high", PriceHigh);
  }

  lemma QueryRating(records: seq<Listing>, q: string, f: FilterOptions)
    ensures forall i, j :: 0 <= i < j < |Query(records, q, f, "rating")| ==>
      Query(records, q, f, "rating")[i].rating >= Query(records, q, f, "rating")[j].rating
  {
    QuerySortedByRank(records, q, f, "rating", Rating);
  }

  /** Newest first: no listing is followed by one that becomes available later. */
  lemma QueryNewest(records: seq<Listing>, q: string, f: FilterOptions)
    requires forall pg :: pg in records ==> ValidDate(pg.availableFrom)
    ensures forall i, j :: 0 <= i < j < |Query(records, q, f, "newest")| ==>
      !Before(Query(records, q, f, "newest")[i].availableFrom, Query(records, q, f, "newest")[j].availableFrom)
  {
    QuerySortedByRank(records, q, f, "newest", Newest);
    QueryMembers(records, q, f, "newest");
    NewestFirst(Query(records, q, f, "newest"));
  }

  lemma NewestFirst(r: seq<Listing>)
    requires forall pg :: pg in r ==> ValidDate(pg.availableFrom)
    requires forall i, j :: 0 <= i < j < |r| ==> Rank(Newest, r[i]) <= Rank(Newest, r[j])
    ensures forall i, j :: 0 <= i < j < |r| ==> !Before(r[i].availableFrom, r[j].availableFrom)
  {
    forall i, j | 0 <= i < j < |r|
      ensures !Before(r[i].availableFrom, r[j].availableFrom)
    {
      assert r[i] in r && r[j] in r;
      DayOrdinalOrder(r[i].availableFrom, r[j].availableFrom);
    }
  }

  /** The `useMemo` body, run against an array: filter, copy, sort in place if a key applies. */
  method FilterAndSort(records: seq<Listing>, q: string, f: FilterOptions, sortBy: string)
    returns (r: seq<Listing>)
    ensures r == Query(records, q, f, sortBy)
  {
    var filtered := FilterListings(records, q, f);
    var a := new Listing[|filtered|](i requires 0 <= i < |filtered| => filtered[i]);
    assert a[..] == filtered;
    match ParseSortBy(sortBy) {
      case None =>
      case Some(o) => SortListings(a, o);
    }
    r := a[..];
  }

  /** The page's state: the search text, the sort key and the filters cell the sidebar writes. */
  class Page {
    /** The records the page lists: `samplePGs`. */
    const records: seq<Listing>
    var searchQuery: string
    var sortBy: string
    const filters: FiltersState

    constructor ()
      ensures records == SamplePGs
      ensures searchQuery == "" && sortBy == "recommended"
      ensures filters.current == DefaultFilters && fresh(filters)
    {
      records := SamplePGs;
      searchQuery := "";
      sortBy := "recommended";
      filters := new FiltersState(DefaultFilters);
    }

    /** The header's `onSearch`. */
    method SetSearchQuery(q: string)
      modifies this
      ensures searchQuery == q && sortBy == old(sortBy)
    {
      searchQuery := q;
    }

    /** The sort select's `onValueChange`. */
    method SetSortBy(key: string)
      modifies this
      ensures sortBy == key && searchQuery == old(searchQuery)
    {
      sortBy := key;
    }

    /** The listing is empty: the page shows "No PGs found" and the "Clear all filters" button. */
    predicate ShowsNothing()
      reads this, filters
    {
      Query(records, searchQuery, filters.current, sortBy) == []
    }

    /** "Clear all filters": empty search and default filters; the sort key stays.
        The page draws this button only in place of an empty listing. */
    method ClearAllFilters()
      requires ShowsNothing()
      modifies this, filters
      ensures searchQuery == "" && filters.current == DefaultFilters
      ensures sortBy == old(sortBy)
      ensures |Active(filters.current, CheckOrder)| == 0
    {
      Reset();
    }

    /** The two setter calls of the button's handler. */
    method Reset()
      modifies this, filters
      ensures searchQuery == "" && filters.current == DefaultFilters
      ensures sortBy == old(sortBy)
      ensures |Active(filters.current, CheckOrder)| == 0
    {
      ActiveCountRange(DefaultFilters);
      searchQuery := "";
      filters.SetFilters(DefaultFilters);
    }

    method FilteredAndSortedPGs() returns (r: seq<Listing>)
      ensures r == Query(records, searchQuery, filters.current, sortBy)
      ensures |r| <= |records|
    {
      r := FilterAndSort(records, searchQuery, filters.current, sortBy);
    }

    /** The badge on the "Filters" button; the same five tests as the sidebar's count. */
    method GetActiveFilterCount() returns (count: nat)
      ensures count == |Active(filters.current, CheckOrder)|
      ensures count <= 5
      ensures count == 0 <==> filters.current == DefaultFilters
    {
      count := CountActiveFilters(filters.current);
      ActiveCountRange(filters.current);
    }
  }

  /** The page's "Clear all filters" followed by a toggle in the sidebar: the
      sidebar's copy is not reset, so the toggle is applied to the selection
      made before the clear and that selection reaches the page again. */
  method ClearThenToggle(page: Page, sidebar: Sidebar, key: ListKey, value: string)
    requires sidebar.onFiltersChange == page.filters
    requires page.ShowsNothing()
    modifies page, page.filters, sidebar
    ensures page.searchQuery == ""
    ensures sidebar.localFilters ==
      Apply(old(sidebar.localFilters), Selection(key, Toggle(GetList(old(sidebar.localFilters), key), value)))
    ensures page.filters.current == sidebar.localFilters
  {
    page.ClearAllFilters();
    sidebar.ToggleArrayFilter(key, value);
  }
}
