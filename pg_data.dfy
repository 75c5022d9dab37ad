/** The listing record of the accommodation browser, the amenity catalogue and
    the eight sample listings the home page filters and sorts.

    Ratings are held in integer tenths (4.5 is 45) and the `availableFrom`
    day as a calendar triple. Fields that no modelled logic reads (review
    count, images, description, meals, parking, nearby places, rules,
    contact numbers, security deposit) are not part of the record here. */
module PgData {

  /** The three values of `genderPreference`. */
  datatype Gender = Male | Female | CoEd

  /** The label a gender preference carries in the data and in the filter lists. */
  function GenderName(g: Gender): (s: string)
    ensures s in ["Male", "Female", "Co-ed"]
  {
    match g
    case Male => "Male"
    case Female => "Female"
    case CoEd => "Co-ed"
  }

  lemma GenderNameInjective(g: Gender, h: Gender)
    ensures GenderName(g) == GenderName(h) <==> g == h
  {
  }

  /** One entry of `roomTypes`: a sharing arrangement, its monthly price and
      whether a place in it is free. */
  datatype RoomOffer = RoomOffer(roomType: string, price: int, available: bool)

  /** A `YYYY-MM-DD` day. */
  datatype Date = Date(year: int, month: int, day: int)

  predicate ValidDate(d: Date) {
    1 <= d.month <= 12 && 1 <= d.day <= 31
  }

  /** Calendar order: earlier year, or same year and earlier month, or same
      month and earlier day. */
  predicate Before(a: Date, b: Date) {
    a.year < b.year
    || (a.year == b.year && a.month < b.month)
    || (a.year == b.year && a.month == b.month && a.day < b.day)
  }

  /** A number that grows with the day: the sort only looks at the sign of
      the difference of two of these, as it does with `getTime()`. */
  function DayOrdinal(d: Date): int {
    d.year * 372 + (d.month - 1) * 31 + (d.day - 1)
  }

  /** The ordinal orders valid days exactly as the calendar does. */
  lemma DayOrdinalOrder(a: Date, b: Date)
    requires ValidDate(a) && ValidDate(b)
    ensures Before(a, b) <==> DayOrdinal(a) < DayOrdinal(b)
    ensures a == b <==> DayOrdinal(a) == DayOrdinal(b)
  {
    var ra := (a.month - 1) * 31 + (a.day - 1);
    var rb := (b.month - 1) * 31 + (b.day - 1);
    assert 0 <= ra < 372 && 0 <= rb < 372;
    if a.year < b.year {
      assert a.year * 372 + 372 <= b.year * 372;
    } else if b.year < a.year {
      assert b.year * 372 + 372 <= a.year * 372;
    }
  }

  /** The `PGData` record, as far as the query engine and the card read it. */
  datatype Listing = Listing(
    id: string,
    name: string,
    location: string,
    city: string,
    price: int,
    rating: int,  // tenths of a star
    amenities: seq<string>,
    roomTypes: seq<RoomOffer>,
    genderPreference: Gender,
    availableFrom: Date)

  const AmenitiesList: seq<string> := [
    "WiFi", "AC", "Power Backup", "CCTV Security", "Housekeeping",
    "Laundry", "Meals", "Hot Water", "Parking", "Gym",
    "Common Area", "Refrigerator", "Water Purifier", "Study Room",
    "Gaming Area", "Lift", "Balcony", "Attached Bathroom"
  ]

  const UrbanNestPG := Listing("1", "Urban Nest PG", "Koramangala, Bangalore", "Bangalore", 15000, 45,
    ["WiFi", "AC", "Power Backup", "CCTV Security", "Housekeeping", "Laundry", "Meals", "Hot Water", "Parking"],
    [RoomOffer("Single Sharing", 18000, true), RoomOffer("Double Sharing", 15000, true),
     RoomOffer("Triple Sharing", 12000, false)],
    CoEd, Date(2024, 1, 15))

  const StudentHaven := Listing("2", "Student Haven", "Lajpat Nagar, Delhi", "Delhi", 12000, 42,
    ["WiFi", "Power Backup", "CCTV Security", "Housekeeping", "Laundry", "Study Room", "Common Area"],
    [RoomOffer("Double Sharing", 12000, true), RoomOffer("Triple Sharing", 9000, true)],
    Male, Date(2024, 1, 10))

  const GreenValleyResidency := Listing("3", "Green Valley Residency", "Hinjewadi, Pune", "Pune", 18000, 47,
    ["WiFi", "AC", "Power Backup", "CCTV Security", "Housekeeping", "Laundry", "Meals", "Hot Water", "Parking", "Gym"],
    [RoomOffer("Single Sharing", 22000, true), RoomOffer("Double Sharing", 18000, true)],
    Female, Date(2024, 2, 1))

  const MetroViewPG := Listing("4", "Metro View PG", "Andheri, Mumbai", "Mumbai", 22000, 43,
    ["WiFi", "AC", "Power Backup", "CCTV Security", "Housekeeping", "Laundry", "Hot Water", "Lift"],
    [RoomOffer("Single Sharing", 25000, false), RoomOffer("Double Sharing", 22000, true),
     RoomOffer("Triple Sharing", 18000, true)],
    CoEd, Date(2024, 1, 20))

  const TechHubResidency := Listing("5", "Tech Hub Residency", "Electronic City, Bangalore", "Bangalore", 14000, 44,
    ["WiFi", "AC", "Power Backup", "CCTV Security", "Housekeeping", "Laundry", "Meals", "Hot Water", "Parking", "Common Area"],
    [RoomOffer("Single Sharing", 17000, true), RoomOffer("Double Sharing", 14000, true),
     RoomOffer("Triple Sharing", 11000, true)],
    Male, Date(2024, 1, 25))

  const RoyalComfortPG := Listing("6", "Royal Comfort PG", "Karol Bagh, Delhi", "Delhi", 16000, 41,
    ["WiFi", "AC", "Power Backup", "CCTV Security", "Housekeeping", "Laundry", "Meals", "Hot Water", "Common Area"],
    [RoomOffer("Single Sharing", 20000, true), RoomOffer("Double Sharing", 16000, true)],
    Female, Date(2024, 2, 5))

  const SkylineHeightsPG := Listing("7", "Skyline Heights PG", "Baner, Pune", "Pune", 16500, 46,
    ["WiFi", "AC", "Power Backup", "CCTV Security", "Housekeeping", "Laundry", "Meals", "Hot Water", "Parking", "Gym", "Gaming Area"],
    [RoomOffer("Single Sharing", 19000, true), RoomOffer("Double Sharing", 16500, true),
     RoomOffer("Triple Sharing", 13500, false)],
    CoEd, Date(2024, 1, 30))

  const ComfortZonePG := Listing("8", "Comfort Zone PG", "Powai, Mumbai", "Mumbai", 20000, 40,
    ["WiFi", "AC", "Power Backup", "CCTV Security", "Housekeeping", "Laundry", "Hot Water", "Common Area", "Water Purifier"],
    [RoomOffer("Double Sharing", 20000, true), RoomOffer("Triple Sharing", 16000, true)],
    Male, Date(2024, 2, 10))

  /** `samplePGs`, in the order the page lists them. */
  const SamplePGs: seq<Listing> := [
    UrbanNestPG, StudentHaven, GreenValleyResidency, MetroViewPG,
    TechHubResidency, RoyalComfortPG, SkylineHeightsPG, ComfortZonePG
  ]

  /** The sample ids are "1" to "8", in order. */
  lemma SampleIdsNumbered()
    ensures forall i :: 0 <= i < |SamplePGs| ==> SamplePGs[i].id == [(i + 49) as char]
  {
  }

  lemma SampleIdsDistinct()
    ensures forall i, j :: 0 <= i < j < |SamplePGs| ==> SamplePGs[i].id != SamplePGs[j].id
  {
    SampleIdsNumbered();
    forall i, j | 0 <= i < j < |SamplePGs|
      ensures SamplePGs[i].id != SamplePGs[j].id
    {
      assert SamplePGs[i].id[0] != SamplePGs[j].id[0];
    }
  }

  lemma SampleAmenitiesListed()
    ensures forall p, a :: p in SamplePGs && a in p.amenities ==> a in AmenitiesList
  {
  }

  lemma SamplePricesInRange()
    ensures forall p :: p in SamplePGs ==> 12000 <= p.price <= 22000
  {
  }

  lemma SamplePricesDistinct()
    ensures forall i, j :: 0 <= i < j < |SamplePGs| ==> SamplePGs[i].price != SamplePGs[j].price
  {
  }

  lemma SampleDatesValid()
    ensures forall p :: p in SamplePGs ==> ValidDate(p.availableFrom)
  {
  }

  lemma SampleDatesDistinct()
    ensures forall i, j :: 0 <= i < j < |SamplePGs| ==>
      SamplePGs[i].availableFrom != SamplePGs[j].availableFrom
  {
  }
}
