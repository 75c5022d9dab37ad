# PG Journey listing browser — verified model

PG Journey is a single-page browser for paying-guest accommodation. The
home page lists sample listings. It narrows them with a search box and
a filter sidebar, and orders them with a sort-by select. Each listing is
drawn as a card with a picture carousel, a like button and a short amenity
preview.

This project models that core in Dafny and proves properties of it.

- `pg_data.dfy` (module `PgData`) holds the listing record, the amenity
  catalogue and the eight sample listings. Lemmas state facts about the
  samples: distinct ids, prices, dates and amenities drawn from the catalogue.
- `filter_sidebar.dfy` (module `FilterSidebar`) models the filter
  configuration and its edits:
  - `{ ...f, [key]: value }` is `Apply`;
  - the checkbox toggle is `Toggle`;
  - the active-filter badge is `Active` and `CountActiveFilters`.

  It also models the sidebar component as a class, `Sidebar`. The class
  holds its local copy of the filters and the parent's state cell
  (`FiltersState`) that `onFiltersChange` writes.
- `listing_sort.dfy` (module `ListingSort`) models the sort stage:
  - the `switch` on the sort key;
  - the four comparators, each the difference of a per-listing rank;
  - a stable sort.

  The sort is specified as the function `InsertionSort`. It is implemented
  as an in-place insertion sort over an `array`, proved to produce exactly
  that function. Lemmas show the result is ordered, is a permutation, and
  keeps listings the comparator calls equal in their incoming order. With
  pairwise-different keys it is the only such arrangement.
- `home_page.dfy` (module `HomePage`) models the query:
  - the six-part filter: search, price, city, gender, amenities and room
    types;
  - `FilterListings`, then `Query`;
  - the `useMemo` body as the method `FilterAndSort`, which runs over an
    array.

  The class `Page` holds the page's state: `searchQuery`, `sortBy` and
  the filters cell. Its methods are the handlers: search, sort select,
  "Clear all filters" and the badge count.

  `ClearThenToggle` shows what the code does when the page clears the
  filters. The sidebar's local copy is seeded from the parent only once,
  so it is not reset. The next toggle in the sidebar is therefore applied
  to the old selection, and that selection reaches the page again.
- `pg_card.dfy` (module `PGCard`) models the card:
  - the carousel index and its wrap-around arrows;
  - the like toggle;
  - `getTopAmenities`;
  - the "+k more" note.
- `sample_queries.dfy` (module `SampleQueries`) works out what the page
  shows for the samples:
  - the order under each of the four sort keys;
  - the result of selecting "Single Sharing";
  - a run of clicks, `StaleSidebarAfterClear`, in which the page's clear
    does not reach the sidebar.

Modelling choices:

- Ratings are integers in tenths of a star (4.5 is 45).
- `availableFrom` is a `(year, month, day)` triple. The "newest" sort
  compares an ordinal of the day that orders valid days as the calendar
  does (`DayOrdinalOrder`).
- The room-offer field called `type` in the source is `roomType` here,
  because `type` is a Dafny keyword.
- `genderPreference` is a datatype. The gender filter compares its label
  against the selected strings, as the code does.

Two behaviours of the code are worth stating plainly:

- The search is not trimmed. Only the empty string leaves the search
  unconstrained, so a query of one space keeps only the listings with a
  space in their name, location or city (`HomePage.SearchOneChar`).
- The sidebar seeds its own copy of the filters once, when it is created.
  The page's copy and the sidebar's copy can therefore drift apart: after
  the page's "Clear all filters", the next sidebar toggle starts again from
  the sidebar's old selection (`HomePage.ClearThenToggle`,
  `SampleQueries.StaleSidebarAfterClear`).

## Model

| member | source | states |
|---|---|---|
| PgData.GenderName | src/data/pgData.ts:16 | the label of a gender preference is one of "Male", "Female", "Co-ed" |
| PgData.GenderNameInjective | src/data/pgData.ts:16 | two preferences have the same label exactly when they are the same preference |
| PgData.DayOrdinal | src/pages/HomePage.tsx:68 | the number the "newest" comparator subtracts: a day's position, 372 per year and 31 per month (its order is `DayOrdinalOrder`) |
| PgData.DayOrdinalOrder | src/pages/HomePage.tsx:68 | for valid days the ordinal is smaller exactly when the day is earlier, and equal exactly when it is the same day |
| PgData.SampleIdsNumbered | src/data/pgData.ts:35-275 | the sample ids are "1" to "8" in list order |
| PgData.SampleIdsDistinct | src/data/pgData.ts:35-275 | no two samples share an id |
| PgData.SampleAmenitiesListed | src/data/pgData.ts:28-33 | every amenity of every sample is in the amenity catalogue |
| PgData.SamplePricesInRange | src/data/pgData.ts:35-275 | every sample price lies within 12000..22000, inside the default price window |
| PgData.SamplePricesDistinct | src/data/pgData.ts:35-275 | no two samples have the same price |
| PgData.SampleDatesValid | src/data/pgData.ts:35-275 | every sample availability date is a valid day |
| PgData.SampleDatesDistinct | src/data/pgData.ts:35-275 | no two samples become available on the same day |
| FilterSidebar.Apply | src/components/FilterSidebar.tsx:46 | the named key takes the new value and every other key keeps its old value |
| FilterSidebar.ApplyOwnValue | src/components/FilterSidebar.tsx:46 | writing a key's current value back leaves the configuration unchanged |
| FilterSidebar.Without | src/components/FilterSidebar.tsx:57 | the value is gone, every other value is kept, and each one keeps its count |
| FilterSidebar.WithoutAppend | src/components/FilterSidebar.tsx:57 | removal distributes over concatenation, so the survivors keep their order |
| FilterSidebar.WithoutAbsent | src/components/FilterSidebar.tsx:57 | removing a value that is not there returns the list unchanged |
| FilterSidebar.Toggle | src/components/FilterSidebar.tsx:55-58 | the value is in the new list exactly when it was not in the old one; other values are untouched; an absent value is appended at the end |
| FilterSidebar.ToggleTwice | src/components/FilterSidebar.tsx:55-58 | toggling an absent value twice gives back the original list |
| FilterSidebar.WithoutNoDuplicates | src/components/FilterSidebar.tsx:57 | removal keeps a duplicate-free list duplicate-free |
| FilterSidebar.ToggleNoDuplicates | src/components/FilterSidebar.tsx:55-58 | toggling keeps a checkbox list free of duplicates |
| FilterSidebar.Deviates | src/components/FilterSidebar.tsx:76-80 | one badge test: a list category deviates when its list is non-empty, the price category when either end differs from 5000..30000 |
| FilterSidebar.Active | src/components/FilterSidebar.tsx:74-82 | the active categories are exactly the listed categories that differ from their default |
| FilterSidebar.ActiveInCheckOrder | src/components/FilterSidebar.tsx:74-82 | the count is the sum of the five one-category tests, in the order the code makes them |
| FilterSidebar.CountActiveFilters | src/components/FilterSidebar.tsx:74-82 | the five increments count exactly the active categories |
| FilterSidebar.ActiveCountRange | src/components/FilterSidebar.tsx:74-82 | the badge shows at most 5, and shows 0 exactly for the default configuration |
| FilterSidebar.FiltersState.constructor | src/pages/HomePage.tsx:17-23 | the page's filters cell starts with the given configuration |
| FilterSidebar.FiltersState.SetFilters | src/pages/HomePage.tsx:138 | the setter replaces the stored configuration |
| FilterSidebar.Sidebar.constructor | src/components/FilterSidebar.tsx:40 | the local copy is taken from the parent's filters when the sidebar is created |
| FilterSidebar.Sidebar.UpdateFilter | src/components/FilterSidebar.tsx:42-49 | the local copy becomes the updated configuration and the parent receives the same value |
| FilterSidebar.Sidebar.ToggleArrayFilter | src/components/FilterSidebar.tsx:51-60 | the toggled list is computed from the local copy; the value's membership flips and the parent receives the new configuration |
| FilterSidebar.Sidebar.ClearAllFilters | src/components/FilterSidebar.tsx:62-72 | the local copy and the parent are both reset to the default configuration, which has no active filter |
| FilterSidebar.Sidebar.GetActiveFilterCount | src/components/FilterSidebar.tsx:74-82 | the count equals the number of active categories in the local copy, at most 5 |
| ListingSort.ParseSortBy | src/pages/HomePage.tsx:57-73 | each of the four keys selects its order; every other string, "recommended" included, selects no sort |
| ListingSort.Compare | src/pages/HomePage.tsx:59-68 | the four comparators: price ascending, price descending, rating descending, availability date descending (proved a rank difference by `CompareIsRankDifference`) |
| ListingSort.Rank | src/pages/HomePage.tsx:59-68 | the per-listing key each comparator subtracts: price, minus price, minus rating, minus the day ordinal |
| ListingSort.CompareIsRankDifference | src/pages/HomePage.tsx:58-69 | each comparator is the difference of the two listings' ranks under its order |
| ListingSort.Insert | src/pages/HomePage.tsx:59 | one insertion step: into a sorted sequence the new element goes after every element of no greater rank and before every greater one; the result is one longer |
| ListingSort.InsertionSort | src/pages/HomePage.tsx:59-68 | the stable sort used as the reference for `Array.prototype.sort`: same length as the input; the lemmas below prove it a sorted, stable permutation |
| ListingSort.InsertionSortPermutes | src/pages/HomePage.tsx:57-73 | sorting rearranges the listings without adding or losing any |
| ListingSort.InsertionSortSorted | src/pages/HomePage.tsx:57-73 | the sorted sequence is in non-decreasing rank order |
| ListingSort.InsertionSortStable | src/pages/HomePage.tsx:57-73 | listings of equal rank keep their incoming relative order |
| ListingSort.InsertionSortDistinct | src/pages/HomePage.tsx:57-73 | sorting a sequence without repeats gives one without repeats |
| ListingSort.StrictlySortedUnique | src/pages/HomePage.tsx:57-73 | two sequences with the same members, one strictly and one weakly ordered without repeats, are equal |
| ListingSort.InsertionSortIsStrictArrangement | src/pages/HomePage.tsx:57-73 | with pairwise-different ranks, the sort yields the one strictly ordered arrangement of the members |
| ListingSort.InsertIntoPrefix | src/pages/HomePage.tsx:59 | one pass moves an element into the sorted prefix of the array, leaving the rest of the array alone |
| ListingSort.SortInPlace | src/pages/HomePage.tsx:59 | the in-place sort with a key-difference comparator leaves the array equal to the stable sort of its old contents |
| ListingSort.SortListings | src/pages/HomePage.tsx:57-73 | sorting the filtered array with the selected comparator yields the stable sort of its old contents by that order |
| HomePage.LowerChar | src/pages/HomePage.tsx:29 | upper-case letters map to their lower-case letters and every other character is kept |
| HomePage.ToLower | src/pages/HomePage.tsx:28-31 | lowercasing keeps the length and lowercases each character in place |
| HomePage.ToLowerIdempotent | src/pages/HomePage.tsx:28-31 | lowercasing a lowercased string changes nothing |
| HomePage.Includes | src/pages/HomePage.tsx:29-31 | `String.prototype.includes`: the needle is a prefix of the string or of one of its suffixes (characterised by `IncludesIffOccurs`) |
| HomePage.IncludesIffOccurs | src/pages/HomePage.tsx:29-31 | `includes` holds exactly when the needle occurs at some position |
| HomePage.IncludesEmpty | src/pages/HomePage.tsx:29-31 | the empty needle is found in every string |
| HomePage.IncludesChar | src/pages/HomePage.tsx:29-31 | a one-character needle is found exactly when that character occurs |
| HomePage.SearchIgnoresCase | src/pages/HomePage.tsx:28-31 | a query and its lowercase form match the same listings |
| HomePage.SearchNarrows | src/pages/HomePage.tsx:28-31 | a listing that matches a query also matches every prefix of it |
| HomePage.SearchFindsCity | src/pages/HomePage.tsx:31 | a query that spells the city, in any case, matches the listing |
| HomePage.SearchOneChar | src/pages/HomePage.tsx:28-31 | a one-character query, a space included, matches exactly when that character occurs in a lowercased name, location or city |
| HomePage.SearchMatch | src/pages/HomePage.tsx:28-31 | the search test: the query is empty, or its lowercase form occurs in the lowercased name, location or city |
| HomePage.PriceMatch | src/pages/HomePage.tsx:34 | the price lies in the window, both ends included |
| HomePage.CityMatch | src/pages/HomePage.tsx:37 | no city is selected, or the listing's city is one of those selected |
| HomePage.GenderMatch | src/pages/HomePage.tsx:40-41 | no gender is selected, or the label of the listing's preference is one of those selected |
| HomePage.AmenitiesMatch | src/pages/HomePage.tsx:44-45 | every selected amenity is among the listing's amenities |
| HomePage.OffersAvailable | src/pages/HomePage.tsx:50 | the listing has an offering of that room type with a free place |
| HomePage.RoomTypesMatch | src/pages/HomePage.tsx:48-51 | no room type is selected, or some selected type is offered with a free place |
| HomePage.Keep | src/pages/HomePage.tsx:28-53 | the filter callback: all six tests hold |
| HomePage.FilterListings | src/pages/HomePage.tsx:26-54 | the result is never longer than the input and holds exactly the records that pass all six tests |
| HomePage.FilterAppend | src/pages/HomePage.tsx:26-54 | filtering distributes over concatenation, so passing records keep their order |
| HomePage.FilterCounts | src/pages/HomePage.tsx:26-54 | a passing record occurs as often as in the input; a failing one does not occur |
| HomePage.FilterAllKept | src/pages/HomePage.tsx:26-54 | when every record passes, the filter returns the input unchanged |
| HomePage.InvertedPriceWindow | src/pages/HomePage.tsx:34 | a price window whose low end is above its high end lets nothing through |
| HomePage.EmptySelectionsOnlyPrice | src/pages/HomePage.tsx:26-54 | with no query and every list empty, a listing passes exactly when its price is in the window |
| HomePage.AmenitiesNarrow | src/pages/HomePage.tsx:44-45 | adding an amenity to a non-empty selection keeps exactly the listings that passed and also offer it |
| HomePage.RoomTypesWiden | src/pages/HomePage.tsx:48-51 | adding a room type to a non-empty selection keeps the listings that passed and adds those with a free place of the new type |
| HomePage.Query | src/pages/HomePage.tsx:25-76 | the memoised list: under every sort key a permutation of the filtered records, never longer than the input |
| HomePage.QueryMembers | src/pages/HomePage.tsx:25-76 | under every sort key the result holds exactly the records that pass the filter |
| HomePage.QueryUnsorted | src/pages/HomePage.tsx:70-72 | "recommended" or an unknown key returns the filtered records in their original order |
| HomePage.QueryStable | src/pages/HomePage.tsx:57-73 | listings the selected comparator calls equal keep their filtered order |
| HomePage.QuerySortedByRank | src/pages/HomePage.tsx:57-73 | the result is in non-decreasing rank order of the selected order |
| HomePage.QueryPriceLow | src/pages/HomePage.tsx:58-60 | under "price-low" prices never decrease along the result |
| HomePage.QueryPriceHigh | src/pages/HomePage.tsx:61-63 | under "price-high" prices never increase along the result |
| HomePage.QueryRating | src/pages/HomePage.tsx:64-66 | under "rating" ratings never increase along the result |
| HomePage.QueryNewest | src/pages/HomePage.tsx:67-69 | under "newest", no listing is followed by one that becomes available later |
| HomePage.FilterAndSort | src/pages/HomePage.tsx:25-76 | filtering, copying to an array and sorting it in place yields exactly the query result |
| HomePage.Page.constructor | src/pages/HomePage.tsx:13-23 | the page starts with an empty search, "recommended" sort and the default filters |
| HomePage.Page.SetSearchQuery | src/pages/HomePage.tsx:95 | the search text is replaced and the sort key is untouched |
| HomePage.Page.SetSortBy | src/pages/HomePage.tsx:186 | the sort key is replaced and the search text is untouched |
| HomePage.Page.ShowsNothing | src/pages/HomePage.tsx:202 | the memoised list is empty, so the page draws "No PGs found" and the clear button instead of the grid |
| HomePage.Page.ClearAllFilters | src/pages/HomePage.tsx:202-238 | offered only while the listing is empty (the button replaces the grid); empties the search and resets the filters to the default, leaving no active filter; the sort key stays |
| HomePage.Page.Reset | src/pages/HomePage.tsx:225-233 | the handler's two setter calls: empty search, default filters, no active filter, sort key unchanged |
| HomePage.Page.FilteredAndSortedPGs | src/pages/HomePage.tsx:25-76 | the list shown is the query over the samples with the page's state, at most 8 listings |
| HomePage.Page.GetActiveFilterCount | src/pages/HomePage.tsx:83-91 | the badge counts the active categories of the page's filters, at most 5, and is 0 exactly for the default |
| HomePage.ClearThenToggle | src/components/FilterSidebar.tsx:40-60 | when the page, showing no listing, clears its filters and the sidebar then toggles a value, the toggle applies to the sidebar's earlier selection and that selection is what the page then holds, with the search still empty |
| SampleQueries.DefaultKeepsAll | src/pages/HomePage.tsx:26-54 | with no search and the default filters every sample is listed, in order |
| SampleQueries.PriceLowOrder | src/pages/HomePage.tsx:58-60 | sorted by price ascending, the samples come in the order 2, 5, 1, 6, 7, 3, 8, 4 |
| SampleQueries.PriceHighOrder | src/pages/HomePage.tsx:61-63 | sorted by price descending, the samples come in the order 4, 8, 3, 7, 6, 1, 5, 2 |
| SampleQueries.RatingOrder | src/pages/HomePage.tsx:64-66 | sorted by rating, the samples come in the order 3, 7, 1, 5, 4, 2, 6, 8 |
| SampleQueries.NewestOrder | src/pages/HomePage.tsx:67-69 | sorted newest first, the samples come in the order 8, 6, 3, 7, 5, 4, 1, 2 |
| SampleQueries.FirstOfferingMatches | src/pages/HomePage.tsx:48-51 | a listing whose first offering is free matches a selection of just that room type |
| SampleQueries.OnlyRoomTypesDecide | src/pages/HomePage.tsx:26-54 | with no query, the default price window and only room types selected, a listing in the window passes exactly when the room-type test does |
| SampleQueries.SingleSharingKept | src/pages/HomePage.tsx:48-51 | samples 1, 3, 5, 6 and 7 have a free single-sharing place |
| SampleQueries.SingleSharingDropped | src/pages/HomePage.tsx:48-51 | samples 2 and 8 offer no single sharing, and sample 4 offers it with no free place |
| SampleQueries.SingleSharingFiltered | src/pages/HomePage.tsx:26-54 | selecting "Single Sharing" keeps samples 1, 3, 5, 6, 7 in their original order |
| SampleQueries.SingleSharingOnly | src/pages/HomePage.tsx:25-76 | under "recommended" the page lists exactly samples 1, 3, 5, 6, 7 |
| SampleQueries.NoDelhiCoEd | src/pages/HomePage.tsx:36-41 | no sample is both in Delhi and open to "Co-ed" |
| SampleQueries.DelhiCoEdEmpty | src/pages/HomePage.tsx:25-76 | with Delhi and "Co-ed" selected the page lists no sample |
| SampleQueries.StaleSidebarAfterClear | src/components/FilterSidebar.tsx:40-60 | selecting Delhi and "Co-ed" empties the listing; clearing from the page, then selecting Pune in the sidebar, sends the page cities Delhi and Pune with gender "Co-ed" |
| PGCard.NextIndex | src/components/PGCard.tsx:25-28 | the next index is one on, wrapping from the last picture to the first, always below 4 |
| PGCard.PrevIndex | src/components/PGCard.tsx:30-33 | the previous index is one back, wrapping from the first picture to the last, always below 4 |
| PGCard.PrevUndoesNext | src/components/PGCard.tsx:25-33 | next then previous, or previous then next, restores the index |
| PGCard.FourNexts | src/components/PGCard.tsx:23-28 | four clicks on the right arrow return to the starting picture |
| PGCard.Steps | src/components/PGCard.tsx:19-33 | after any non-empty run of arrow clicks the index is below 4 |
| PGCard.StepsByNet | src/components/PGCard.tsx:19-33 | after any run of clicks the index is the start plus the net number of right clicks, taken modulo 4 |
| PGCard.Card.constructor | src/components/PGCard.tsx:19-20 | a card starts on picture 0 and not liked |
| PGCard.Card.NextImage | src/components/PGCard.tsx:25-28 | the index moves to the next picture, stays below 4, and the like state is untouched |
| PGCard.Card.PrevImage | src/components/PGCard.tsx:30-33 | the index moves to the previous picture, stays below 4, and the like state is untouched |
| PGCard.Card.ToggleLike | src/components/PGCard.tsx:35-38 | the like state is negated and the picture is untouched |
| PGCard.NextThenPrev | src/components/PGCard.tsx:25-33 | clicking right then left on a card shows the same picture as before |
| PGCard.LikeTwice | src/components/PGCard.tsx:35-38 | liking twice leaves the card as it was |
| PGCard.IconFor | src/components/PGCard.tsx:41-49 | WiFi, Parking and Meals, and only they, get their own icons; every other catalogue amenity gets the dot |
| PGCard.Badges | src/components/PGCard.tsx:47-50 | one badge per amenity, in order, named after it and carrying its icon |
| PGCard.TopAmenities | src/components/PGCard.tsx:40-51 | min(3, n) badges for the first amenities, in order, names unchanged |
| PGCard.MoreAmenities | src/components/PGCard.tsx:158-161 | the note appears exactly when there are more than 3 amenities, and then counts the ones past the third, at least one |
| PGCard.PreviewAccountsForAll | src/components/PGCard.tsx:152-162 | the "+k more" note appears exactly when some amenity has no badge, and the badges plus k account for every amenity |
| PGCard.SampleCardsPreview | src/components/PGCard.tsx:152-162 | every sample card shows the WiFi badge first and a "+(n-3) more" note |

## Left out

- Listing fields that no modelled logic reads are not in the record: review count, images, description, meals, parking, nearby places, rules, contact numbers and security deposit.
- JavaScript `Date` parsing of `availableFrom` is not modelled. The day is a `(year, month, day)` triple, and the "newest" sort uses an ordinal that orders valid days as `getTime()` does. Time zones and invalid date strings are not modelled.
- Ratings are not floating point. They are integer tenths, which is exact for the one-decimal ratings the data holds.
- PGCard.IconFor: the source looks the name up in a plain JavaScript object, so a name that such an object inherits ("constructor", "toString", "valueOf" and the like) finds the inherited member instead of falling back to the dot. The model gives such a name the dot. No catalogue amenity has such a name.
- HomePage.LowerChar: lowercases only the ASCII letters A-Z, not the full Unicode `toLowerCase`.
- React itself is not modelled. Hook scheduling, re-rendering and `useMemo` caching are left out: state cells are class fields, and the memoised value is recomputed by `Page.FilteredAndSortedPGs`.
- The JSX markup, icons, images, styling, the Header component and the price Slider widget are not modelled. The slider's effect is `Sidebar.UpdateFilter` with a `PriceRange` update.
- The `isOpen`/`onClose` props, `isFilterOpen`, `viewMode` and the `handleViewDetails` navigation stub have no logic to verify, so they are not modelled.
- `toggleArrayFilter` applied to the `priceRange` key is not modelled. The checkboxes only ever pass the four list keys, and `ListKey` has only those.
- `getActiveFilterCount` exists twice in the source, once over the page's filters and once over the sidebar's copy. Both copies are modelled by the single `CountActiveFilters`, called by `Page.GetActiveFilterCount` and `Sidebar.GetActiveFilterCount`.
- Text-search scenarios on the concrete samples (a query such as "pune") are not stated. The search is covered by the general lemmas on `SearchMatch`.
- The JavaScript engine's own sort algorithm is not modelled. Only its documented result is: a stable sort by the comparator, here an insertion sort.
