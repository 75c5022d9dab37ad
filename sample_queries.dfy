/** What the home page shows for the sample listings under particular
    filters and sort keys. */
module SampleQueries {
  import opened PgData
  import opened FilterSidebar
  import opened ListingSort
  import opened HomePage

  /** With the start-up filters and no search every sample listing passes. */
  lemma DefaultKeepsAll()
    ensures FilterListings(SamplePGs, "", DefaultFilters) == SamplePGs
  {
    SamplePricesInRange();
    FilterAllKept(SamplePGs, "", DefaultFilters);
  }

  lemma SamplesDistinct()
    ensures Distinct(SamplePGs)
  {
    SampleIdsDistinct();
  }

  /** Strict order of neighbours gives strict order of every pair. */
  lemma {:induction false} StrictlySortedByNeighbours<T>(key: T -> int, t: seq<T>)
    requires forall i :: 0 <= i < |t| - 1 ==> key(t[i]) < key(t[i + 1])
    ensures StrictlySorted(key, t)
  {
    if |t| > 1 {
      StrictlySortedByNeighbours(key, t[1..]);
      forall i, j | 0 <= i < j < |t| ensures key(t[i]) < key(t[j]) {
        if i > 0 {
          assert key(t[1..][i - 1]) < key(t[1..][j - 1]);
        } else if j > 1 {
          assert key(t[1..][0]) < key(t[1..][j - 1]);
        }
      }
    }
  }

  /** Sorting all eight samples by an order whose ranks are all different. */
  lemma SortedSamples(o: Order, t: seq<Listing>)
    requires forall i :: 0 <= i < |t| - 1 ==> Rank(o, t[i]) < Rank(o, t[i + 1])
    requires forall z :: z in t <==> z in SamplePGs
    ensures InsertionSort(RankOf(o), SamplePGs) == t
  {
    SamplesDistinct();
    StrictlySortedByNeighbours(RankOf(o), t);
    InsertionSortIsStrictArrangement(RankOf(o), SamplePGs, t);
  }

  /** Cheapest first: ids 2, 5, 1, 6, 7, 3, 8, 4. */
  lemma PriceLowOrder()
    ensures Query(SamplePGs, "", DefaultFilters, "price-low") ==
      [StudentHaven, TechHubResidency, UrbanNestPG, RoyalComfortPG,
       SkylineHeightsPG, GreenValleyResidency, ComfortZonePG, MetroViewPG]
  {
    DefaultKeepsAll();
    SortedSamples(PriceLow, [StudentHaven, TechHubResidency, UrbanNestPG, RoyalComfortPG,
      SkylineHeightsPG, GreenValleyResidency, ComfortZonePG, MetroViewPG]);
  }

  /** Dearest first: ids 4, 8, 3, 7, 6, 1, 5, 2, the reverse of the price-low order. */
  lemma PriceHighOrder()
    ensures Query(SamplePGs, "", DefaultFilters, "price-high") ==
      [MetroViewPG, ComfortZonePG, GreenValleyResidency, SkylineHeightsPG,
       RoyalComfortPG, UrbanNestPG, TechHubResidency, StudentHaven]
  {
    DefaultKeepsAll();
    SortedSamples(PriceHigh, [MetroViewPG, ComfortZonePG, GreenValleyResidency, SkylineHeightsPG,
      RoyalComfortPG, UrbanNestPG, TechHubResidency, StudentHaven]);
  }

  /** Best rated first: ids 3, 7, 1, 5, 4, 2, 6, 8. */
  lemma RatingOrder()
    ensures Query(SamplePGs, "", DefaultFilters, "rating") ==
      [GreenValleyResidency, SkylineHeightsPG, UrbanNestPG, TechHubResidency,
       MetroViewPG, StudentHaven, RoyalComfortPG, ComfortZonePG]
  {
    DefaultKeepsAll();
    SortedSamples(Rating, [GreenValleyResidency, SkylineHeightsPG, UrbanNestPG, TechHubResidency,
      MetroViewPG, StudentHaven, RoyalComfortPG, ComfortZonePG]);
  }

  /** Latest availability first: ids 8, 6, 3, 7, 5, 4, 1, 2. */
  lemma NewestOrder()
    ensures Query(SamplePGs, "", DefaultFilters, "newest") ==
      [ComfortZonePG, RoyalComfortPG, GreenValleyResidency, SkylineHeightsPG,
       TechHubResidency, MetroViewPG, UrbanNestPG, StudentHaven]
  {
    DefaultKeepsAll();
    SortedSamples(Newest, [ComfortZonePG, RoyalComfortPG, GreenValleyResidency, SkylineHeightsPG,
      TechHubResidency, MetroViewPG, UrbanNestPG, StudentHaven]);
  }

  const SingleSharing := DefaultFilters.(roomTypes := ["Single Sharing"])

  /** A listing whose first offering is free matches a selection of just that room type. */
  lemma FirstOfferingMatches(f: FilterOptions, pg: Listing)
    requires |pg.roomTypes| > 0 && pg.roomTypes[0].available
    requires f.roomTypes == [pg.roomTypes[0].roomType]
    ensures RoomTypesMatch(f, pg)
  {
    assert pg.roomTypes[0] in pg.roomTypes;
    assert OffersAvailable(pg, f.roomTypes[0]);
  }

  function Kept(q: string, f: FilterOptions, pg: Listing): seq<Listing> {
    if Keep(q, f, pg) then [pg] else []
  }

  lemma FilterFrom(s: seq<Listing>, i: nat, q: string, f: FilterOptions)
    requires i < |s|
    ensures FilterListings(s[i..], q, f) == Kept(q, f, s[i]) + FilterListings(s[i + 1..], q, f)
  {
    assert s[i..][1..] == s[i + 1..];
  }

  /** With an empty search and only room types selected, a listing within the
      default price window passes exactly when the room-type test does. */
  lemma OnlyRoomTypesDecide(f: FilterOptions, pg: Listing)
    requires f == DefaultFilters.(roomTypes := f.roomTypes)
    requires 5000 <= pg.price <= 30000
    ensures Kept("", f, pg) == if RoomTypesMatch(f, pg) then [pg] else []
  {
  }

  /** The filter over eight listings, one verdict at a time. */
  lemma FilterEight(s: seq<Listing>, q: string, f: FilterOptions)
    requires |s| == 8
    ensures FilterListings(s, q, f) ==
      Kept(q, f, s[0]) + (Kept(q, f, s[1]) + (Kept(q, f, s[2]) + (Kept(q, f, s[3]) +
      (Kept(q, f, s[4]) + (Kept(q, f, s[5]) + (Kept(q, f, s[6]) + Kept(q, f, s[7])))))))
  {
    assert s[0..] == s && s[8..] == [];
    FilterFrom(s, 0, q, f);
    FilterFrom(s, 1, q, f);
    FilterFrom(s, 2, q, f);
    FilterFrom(s, 3, q, f);
    FilterFrom(s, 4, q, f);
    FilterFrom(s, 5, q, f);
    FilterFrom(s, 6, q, f);
    FilterFrom(s, 7, q, f);
    assert Kept(q, f, s[7]) + [] == Kept(q, f, s[7]);
  }

  /** The samples with a free single-sharing place. */
  lemma SingleSharingKept()
    ensures RoomTypesMatch(SingleSharing, UrbanNestPG) && RoomTypesMatch(SingleSharing, GreenValleyResidency)
    ensures RoomTypesMatch(SingleSharing, TechHubResidency) && RoomTypesMatch(SingleSharing, RoyalComfortPG)
    ensures RoomTypesMatch(SingleSharing, SkylineHeightsPG)
  {
    FirstOfferingMatches(SingleSharing, UrbanNestPG);
    FirstOfferingMatches(SingleSharing, GreenValleyResidency);
    FirstOfferingMatches(SingleSharing, TechHubResidency);
    FirstOfferingMatches(SingleSharing, RoyalComfortPG);
    FirstOfferingMatches(SingleSharing, SkylineHeightsPG);
  }

  /** Metro View PG lists single sharing, but with no free place. */
  lemma SingleSharingDropped()
    ensures !RoomTypesMatch(SingleSharing, StudentHaven) && !RoomTypesMatch(SingleSharing, ComfortZonePG)
    ensures !RoomTypesMatch(SingleSharing, MetroViewPG) && MetroViewPG.roomTypes[0].roomType == "Single Sharing"
  {
  }

  /** The verdicts on the first four samples. */
  lemma SingleSharingFirstFour()
    ensures Kept("", SingleSharing, UrbanNestPG) == [UrbanNestPG]
    ensures Kept("", SingleSharing, StudentHaven) == []
    ensures Kept("", SingleSharing, GreenValleyResidency) == [GreenValleyResidency]
    ensures Kept("", SingleSharing, MetroViewPG) == []
  {
    SingleSharingKept();
    SingleSharingDropped();
    OnlyRoomTypesDecide(SingleSharing, UrbanNestPG);
    OnlyRoomTypesDecide(SingleSharing, StudentHaven);
    OnlyRoomTypesDecide(SingleSharing, GreenValleyResidency);
    OnlyRoomTypesDecide(SingleSharing, MetroViewPG);
  }

  /** The verdicts on the last four samples. */
  lemma SingleSharingLastFour()
    ensures Kept("", SingleSharing, TechHubResidency) == [TechHubResidency]
    ensures Kept("", SingleSharing, RoyalComfortPG) == [RoyalComfortPG]
    ensures Kept("", SingleSharing, SkylineHeightsPG) == [SkylineHeightsPG]
    ensures Kept("", SingleSharing, ComfortZonePG) == []
  {
    SingleSharingKept();
    SingleSharingDropped();
    OnlyRoomTypesDecide(SingleSharing, TechHubResidency);
    OnlyRoomTypesDecide(SingleSharing, RoyalComfortPG);
    OnlyRoomTypesDecide(SingleSharing, SkylineHeightsPG);
    OnlyRoomTypesDecide(SingleSharing, ComfortZonePG);
  }

  /** The eight verdicts joined. Proved apart from the filter itself: with
      this step inline, the proof below exceeds the resource limit. */
  lemma SingleSharingJoined()
    ensures [UrbanNestPG] + ([] + ([GreenValleyResidency] + ([] + ([TechHubResidency] + ([RoyalComfortPG] + ([SkylineHeightsPG] + []))))))
      == [UrbanNestPG, GreenValleyResidency, TechHubResidency, RoyalComfortPG, SkylineHeightsPG]
  {
  }

  lemma SingleSharingFiltered()
    ensures FilterListings(SamplePGs, "", SingleSharing) ==
      [UrbanNestPG, GreenValleyResidency, TechHubResidency, RoyalComfortPG, SkylineHeightsPG]
  {
    var s, f := SamplePGs, SingleSharing;
    SingleSharingFirstFour();
    SingleSharingLastFour();
    FilterEight(s, "", f);
    SingleSharingJoined();
  }

  lemma SingleSharingOnly()
    ensures Query(SamplePGs, "", SingleSharing, "recommended") ==
      [UrbanNestPG, GreenValleyResidency, TechHubResidency, RoyalComfortPG, SkylineHeightsPG]
  {
    SingleSharingFiltered();
    QueryUnsorted(SamplePGs, "", SingleSharing, "recommended");
  }

  /** Delhi together with "Co-ed": both Delhi samples take one gender only. */
  const DelhiCoEd := DefaultFilters.(cities := ["Delhi"], genderPreference := ["Co-ed"])

  lemma NoDelhiCoEd()
    ensures forall pg :: pg in SamplePGs ==> !(CityMatch(DelhiCoEd, pg) && GenderMatch(DelhiCoEd, pg))
  {
  }

  /** No sample passes, so the page shows its empty state and the "Clear all filters" button. */
  lemma DelhiCoEdEmpty()
    ensures Query(SamplePGs, "", DelhiCoEd, "recommended") == []
  {
    NoDelhiCoEd();
    NoMembers(FilterListings(SamplePGs, "", DelhiCoEd));
    QueryUnsorted(SamplePGs, "", DelhiCoEd, "recommended");
  }

  /** Select Delhi and "Co-ed" in the sidebar, which empties the list; clear
      from the page's empty state; then select Pune. The sidebar's copy still
      holds the earlier selection, so the page receives Delhi, Pune and
      "Co-ed" although it was cleared in between. */
  method StaleSidebarAfterClear() returns (sent: FilterOptions)
    ensures sent == DefaultFilters.(cities := ["Delhi", "Pune"], genderPreference := ["Co-ed"])
  {
    var page := new Page();
    var sidebar := new Sidebar(page.filters);
    sidebar.ToggleArrayFilter(Cities, "Delhi");
    assert sidebar.localFilters.cities == [] + ["Delhi"];
    sidebar.ToggleArrayFilter(GenderPreference, "Co-ed");
    assert sidebar.localFilters.genderPreference == [] + ["Co-ed"];
    assert page.filters.current == DelhiCoEd;
    DelhiCoEdEmpty();
    ClearThenToggle(page, sidebar, Cities, "Pune");
    assert sidebar.localFilters.cities == ["Delhi"] + ["Pune"];
    sent := page.filters.current;
  }
}
