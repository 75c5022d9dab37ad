/** The filter configuration and the sidebar that edits it.

    The sidebar keeps its own copy, `localFilters`, seeded once from the
    parent's filters when it is created; every edit replaces that copy and
    hands the new value to the parent through `onFiltersChange`, which is
    the parent's state setter (modelled by `FiltersState`). */
module FilterSidebar {

  /** `FilterOptions`: an inclusive price window and four selection lists. */
  datatype FilterOptions = FilterOptions(
    priceRange: (int, int),
    cities: seq<string>,
    genderPreference: seq<string>,
    amenities: seq<string>,
    roomTypes: seq<string>)

  /** The configuration at start-up and after "Clear all filters". */
  const DefaultFilters := FilterOptions((5000, 30000), [], [], [], [])

  /** The four list-valued keys of `FilterOptions`. */
  datatype ListKey = Cities | GenderPreference | Amenities | RoomTypes

  function GetList(f: FilterOptions, key: ListKey): seq<string> {
    match key
    case Cities => f.cities
    case GenderPreference => f.genderPreference
    case Amenities => f.amenities
    case RoomTypes => f.roomTypes
  }

  /** The argument of `updateFilter`: a key together with a value of that key's type. */
  datatype FilterUpdate =
    | PriceRange(low: int, high: int)
    | Selection(key: ListKey, values: seq<string>)

  /** `{ ...localFilters, [key]: value }`: the named field takes the new
      value and every other field keeps its old one. */
  function Apply(f: FilterOptions, u: FilterUpdate): (g: FilterOptions)
    ensures u.PriceRange? ==> g.priceRange == (u.low, u.high)
    ensures u.Selection? ==> g.priceRange == f.priceRange && GetList(g, u.key) == u.values
    ensures forall k :: (u.PriceRange? || k != u.key) ==> GetList(g, k) == GetList(f, k)
  {
    match u
    case PriceRange(lo, hi) => f.(priceRange := (lo, hi))
    case Selection(Cities, v) => f.(cities := v)
    case Selection(GenderPreference, v) => f.(genderPreference := v)
    case Selection(Amenities, v) => f.(amenities := v)
    case Selection(RoomTypes, v) => f.(roomTypes := v)
  }

  /** Applying the value a field already has changes nothing. */
  lemma ApplyOwnValue(f: FilterOptions, k: ListKey)
    ensures Apply(f, Selection(k, GetList(f, k))) == f
    ensures Apply(f, PriceRange(f.priceRange.0, f.priceRange.1)) == f
  {
  }

  /** `values.filter(v => v !== value)`. */
  function Without(values: seq<string>, value: string): (r: seq<string>)
    ensures value !in r
    ensures forall w :: w != value ==> (w in r <==> w in values)
    ensures multiset(r) == multiset(values)[value := 0]
  {
    if values == [] then []
    else
      assert values == [values[0]] + values[1..];
      if values[0] == value then Without(values[1..], value)
      else [values[0]] + Without(values[1..], value)
  }

  /** Removing keeps the relative order of what remains: it distributes over concatenation. */
  lemma {:induction false} WithoutAppend(a: seq<string>, b: seq<string>, value: string)
    ensures Without(a + b, value) == Without(a, value) + Without(b, value)
  {
    if a == [] {
      assert a + b == b;
    } else {
      assert (a + b)[1..] == a[1..] + b;
      WithoutAppend(a[1..], b, value);
    }
  }

  /** A list without the value is left as it is. */
  lemma {:induction false} WithoutAbsent(values: seq<string>, value: string)
    requires value !in values
    ensures Without(values, value) == values
  {
    if values != [] {
      WithoutAbsent(values[1..], value);
    }
  }

  /** The new list of `toggleArrayFilter`: the value removed if present, otherwise appended. */
  function Toggle(values: seq<string>, value: string): (r: seq<string>)
    ensures value in r <==> value !in values
    ensures forall w :: w != value ==> (w in r <==> w in values)
    ensures value !in values ==> r == values + [value]
  {
    if value in values then Without(values, value) else values + [value]
  }

  /** Toggling an absent value twice gives back the list. */
  lemma ToggleTwice(values: seq<string>, value: string)
    requires value !in values
    ensures Toggle(Toggle(values, value), value) == values
  {
    WithoutAppend(values, [value], value);
    WithoutAbsent(values, value);
    assert Without([value], value) == [];
  }

  predicate NoDuplicates(s: seq<string>) {
    forall i, j :: 0 <= i < j < |s| ==> s[i] != s[j]
  }

  lemma {:induction false} WithoutNoDuplicates(values: seq<string>, value: string)
    requires NoDuplicates(values)
    ensures NoDuplicates(Without(values, value))
  {
    if values != [] {
      WithoutNoDuplicates(values[1..], value);
      if values[0] != value {
        assert values[0] !in values[1..];
        assert values[0] !in Without(values[1..], value);
      }
    }
  }

  /** The checkbox lists never hold a value twice. */
  lemma ToggleNoDuplicates(values: seq<string>, value: string)
    requires NoDuplicates(values)
    ensures NoDuplicates(Toggle(values, value))
  {
    if value in values {
      WithoutNoDuplicates(values, value);
    }
  }

  /** The five filter categories the "active filters" badge counts. */
  datatype Category = PriceCategory | CityCategory | GenderCategory | AmenityCategory | RoomTypeCategory

  /** The categories in the order `getActiveFilterCount` tests them. */
  const CheckOrder: seq<Category> :=
    [CityCategory, GenderCategory, AmenityCategory, RoomTypeCategory, PriceCategory]

  /** A category is active when it differs from its default. */
  predicate Deviates(f: FilterOptions, c: Category) {
    match c
    case PriceCategory => f.priceRange.0 != 5000 || f.priceRange.1 != 30000
    case CityCategory => |f.cities| > 0
    case GenderCategory => |f.genderPreference| > 0
    case AmenityCategory => |f.amenities| > 0
    case RoomTypeCategory => |f.roomTypes| > 0
  }

  /** The categories of `cs` that are active in `f`, in order. */
  function Active(f: FilterOptions, cs: seq<Category>): (r: seq<Category>)
    ensures |r| <= |cs|
    ensures forall c :: c in r <==> c in cs && Deviates(f, c)
  {
    if cs == [] then []
    else (if Deviates(f, cs[0]) then [cs[0]] else []) + Active(f, cs[1..])
  }

  function Indicator(b: bool): nat {
    if b then 1 else 0
  }

  /** The count over `CheckOrder`, one term per category. */
  lemma ActiveInCheckOrder(f: FilterOptions)
    ensures |Active(f, CheckOrder)| ==
      Indicator(Deviates(f, CityCategory)) + Indicator(Deviates(f, GenderCategory))
      + Indicator(Deviates(f, AmenityCategory)) + Indicator(Deviates(f, RoomTypeCategory))
      + Indicator(Deviates(f, PriceCategory))
  {
    var cs := CheckOrder;
    ActiveStep(f, cs);
    ActiveStep(f, cs[1..]);
    ActiveStep(f, cs[1..][1..]);
    ActiveStep(f, cs[1..][1..][1..]);
    ActiveStep(f, cs[1..][1..][1..][1..]);
    assert cs[1..][1..][1..][1..][1..] == [];
  }

  lemma ActiveStep(f: FilterOptions, cs: seq<Category>)
    requires cs != []
    ensures |Active(f, cs)| == Indicator(Deviates(f, cs[0])) + |Active(f, cs[1..])|
  {
  }

  /** `getActiveFilterCount`: the number of categories that differ from the default. */
  method CountActiveFilters(f: FilterOptions) returns (count: nat)
    ensures count == |Active(f, CheckOrder)|
  {
    ActiveInCheckOrder(f);
    count := 0;
    if |f.cities| > 0 { count := count + 1; }
    if |f.genderPreference| > 0 { count := count + 1; }
    if |f.amenities| > 0 { count := count + 1; }
    if |f.roomTypes| > 0 { count := count + 1; }
    if f.priceRange.0 != 5000 || f.priceRange.1 != 30000 { count := count + 1; }
  }

  /** The badge shows at most five, and zero exactly for the default configuration. */
  lemma ActiveCountRange(f: FilterOptions)
    ensures |Active(f, CheckOrder)| <= 5
    ensures |Active(f, CheckOrder)| == 0 <==> f == DefaultFilters
  {
    var r := Active(f, CheckOrder);
    if |r| == 0 {
      forall c | c in CheckOrder ensures !Deviates(f, c) {
        assert c !in r;
      }
      assert !Deviates(f, CityCategory) && !Deviates(f, GenderCategory);
      assert !Deviates(f, AmenityCategory) && !Deviates(f, RoomTypeCategory);
      assert !Deviates(f, PriceCategory);
    } else {
      assert r[0] in r;
    }
  }

  /** The parent's `filters` state; `onFiltersChange` is its setter. */
  class FiltersState {
    var current: FilterOptions

    constructor (initial: FilterOptions)
      ensures current == initial
    {
      current := initial;
    }

    method SetFilters(f: FilterOptions)
      modifies this
      ensures current == f
    {
      current := f;
    }
  }

  /** The filter sidebar: its local copy of the filters and the parent it reports to. */
  class Sidebar {
    var localFilters: FilterOptions
    const onFiltersChange: FiltersState

    /** `useState(filters)`: the local copy is taken from the parent once, here. */
    constructor (parent: FiltersState)
      ensures onFiltersChange == parent
      ensures localFilters == parent.current
    {
      onFiltersChange := parent;
      localFilters := parent.current;
    }

    method UpdateFilter(u: FilterUpdate)
      modifies this, onFiltersChange
      ensures localFilters == Apply(old(localFilters), u)
      ensures onFiltersChange.current == localFilters
    {
      var newFilters := Apply(localFilters, u);
      localFilters := newFilters;
      onFiltersChange.SetFilters(newFilters);
    }

    /** The new list is computed from the LOCAL copy, whatever the parent holds. */
    method ToggleArrayFilter(key: ListKey, value: string)
      modifies this, onFiltersChange
      ensures localFilters == Apply(old(localFilters), Selection(key, Toggle(GetList(old(localFilters), key), value)))
      ensures onFiltersChange.current == localFilters
      ensures value in GetList(localFilters, key) <==> value !in GetList(old(localFilters), key)
    {
      var currentValues := GetList(localFilters, key);
      var newValues := Toggle(currentValues, value);
      UpdateFilter(Selection(key, newValues));
    }

    method ClearAllFilters()
      modifies this, onFiltersChange
      ensures localFilters == DefaultFilters
      ensures onFiltersChange.current == DefaultFilters
      ensures |Active(localFilters, CheckOrder)| == 0
    {
      localFilters := DefaultFilters;
      onFiltersChange.SetFilters(DefaultFilters);
      ActiveCountRange(localFilters);
    }

    method GetActiveFilterCount() returns (count: nat)
      ensures count == |Active(localFilters, CheckOrder)|
      ensures count <= 5
    {
      count := CountActiveFilters(localFilters);
      ActiveCountRange(localFilters);
    }
  }
}
