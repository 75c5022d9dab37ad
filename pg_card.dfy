/** The listing card: its picture carousel, its like button and the short
    amenity preview under the rating. */
module PGCard {
  import opened PgData

  /** The carousel always cycles through the same four pictures. */
  const ImageCount: nat := 4

  /** The index after a click on the right arrow: one on, wrapping from the last to the first. */
  function NextIndex(i: nat): (r: nat)
    ensures r < ImageCount
    ensures i + 1 < ImageCount ==> r == i + 1
    ensures i + 1 == ImageCount ==> r == 0
  {
    (i + 1) % ImageCount
  }

  /** The index after a click on the left arrow: one back, wrapping from the first to the last. */
  function PrevIndex(i: nat): (r: nat)
    ensures r < ImageCount
    ensures 0 < i < ImageCount ==> r == i - 1
    ensures i == 0 ==> r == ImageCount - 1
  {
    (i - 1 + ImageCount) % ImageCount
  }

  /** Each arrow undoes the other. */
  lemma PrevUndoesNext(i: nat)
    requires i < ImageCount
    ensures PrevIndex(NextIndex(i)) == i
    ensures NextIndex(PrevIndex(i)) == i
  {
  }

  /** Four clicks on the right arrow come back to the same picture. */
  lemma FourNexts(i: nat)
    requires i < ImageCount
    ensures NextIndex(NextIndex(NextIndex(NextIndex(i)))) == i
  {
  }

  datatype Click = Next | Prev

  /** The index after a run of arrow clicks. */
  function Steps(i: nat, clicks: seq<Click>): (r: nat)
    ensures r < ImageCount || (clicks == [] && r == i)
    decreases clicks
  {
    if clicks == [] then i
    else
      var j := if clicks[0] == Next then NextIndex(i) else PrevIndex(i);
      Steps(j, clicks[1..])
  }

  /** Right-arrow clicks minus left-arrow clicks. */
  function Net(clicks: seq<Click>): int {
    if clicks == [] then 0
    else (if clicks[0] == Next then 1 else -1) + Net(clicks[1..])
  }

  /** However the arrows are clicked, the picture shown is the start moved on
      by the net number of right clicks, counted round the four pictures. */
  lemma {:induction false} StepsByNet(i: nat, clicks: seq<Click>)
    requires i < ImageCount
    ensures Steps(i, clicks) == (i + Net(clicks)) % ImageCount
    decreases clicks
  {
    if clicks != [] {
      var j := if clicks[0] == Next then NextIndex(i) else PrevIndex(i);
      StepsByNet(j, clicks[1..]);
      var d := if clicks[0] == Next then 1 else -1;
      assert (j - (i + d)) % ImageCount == 0;
      ModShift(j, i + d, Net(clicks[1..]));
    }
  }

  /** Adding the same amount to two numbers equal modulo four keeps them equal modulo four. */
  lemma ModShift(a: int, b: int, n: int)
    requires (a - b) % ImageCount == 0
    ensures (a + n) % ImageCount == (b + n) % ImageCount
  {
    var k := (a - b) / ImageCount;
    assert a + n == (b + n) + ImageCount * k;
  }

  /** The card component's own state: which picture is shown and whether it is liked. */
  class Card {
    const pg: Listing
    var currentImageIndex: nat
    var isLiked: bool

    /** The shown picture is always one of the four. */
    ghost predicate Valid()
      reads this
    {
      currentImageIndex < ImageCount
    }

    constructor (pg: Listing)
      ensures this.pg == pg
      ensures currentImageIndex == 0 && !isLiked
      ensures Valid()
    {
      this.pg := pg;
      currentImageIndex := 0;
      isLiked := false;
    }

    method NextImage()
      modifies this
      ensures currentImageIndex == NextIndex(old(currentImageIndex))
      ensures isLiked == old(isLiked)
      ensures Valid()
    {
      currentImageIndex := (currentImageIndex + 1) % ImageCount;
    }

    method PrevImage()
      modifies this
      ensures currentImageIndex == PrevIndex(old(currentImageIndex))
      ensures isLiked == old(isLiked)
      ensures Valid()
    {
      currentImageIndex := (currentImageIndex - 1 + ImageCount) % ImageCount;
    }

    method ToggleLike()
      modifies this
      ensures isLiked == !old(isLiked)
      ensures currentImageIndex == old(currentImageIndex)
    {
      isLiked := !isLiked;
    }
  }

  /** Clicking right then left on a card shows the picture it showed before. */
  method NextThenPrev(card: Card)
    requires card.Valid()
    modifies card
    ensures card.currentImageIndex == old(card.currentImageIndex)
    ensures card.isLiked == old(card.isLiked)
  {
    card.NextImage();
    card.PrevImage();
    PrevUndoesNext(old(card.currentImageIndex));
  }

  /** Liking twice leaves the card as it was. */
  method LikeTwice(card: Card)
    modifies card
    ensures card.isLiked == old(card.isLiked)
    ensures card.currentImageIndex == old(card.currentImageIndex)
  {
    card.ToggleLike();
    card.ToggleLike();
  }

  /** The small picture beside an amenity name: three amenities have their
      own, every other catalogue amenity gets a plain dot. */
  datatype Icon = WifiIcon | CarIcon | MealsIcon | Dot

  function IconFor(amenity: string): (icon: Icon)
    ensures icon == WifiIcon <==> amenity == "WiFi"
    ensures icon == CarIcon <==> amenity == "Parking"
    ensures icon == MealsIcon <==> amenity == "Meals"
  {
    if amenity == "WiFi" then WifiIcon
    else if amenity == "Parking" then CarIcon
    else if amenity == "Meals" then MealsIcon
    else Dot
  }

  datatype AmenityBadge = AmenityBadge(name: string, icon: Icon)

  /** One badge per amenity, in order. */
  function Badges(amenities: seq<string>): (r: seq<AmenityBadge>)
    ensures |r| == |amenities|
    ensures forall i :: 0 <= i < |r| ==> r[i].name == amenities[i] && r[i].icon == IconFor(amenities[i])
  {
    if amenities == [] then []
    else [AmenityBadge(amenities[0], IconFor(amenities[0]))] + Badges(amenities[1..])
  }

  /** How many amenities the card previews. */
  const PreviewSize: nat := 3

  /** `getTopAmenities`: badges for the first three amenities (all of them when there are fewer). */
  function TopAmenities(amenities: seq<string>): (r: seq<AmenityBadge>)
    ensures |r| == if |amenities| < PreviewSize then |amenities| else PreviewSize
    ensures forall i :: 0 <= i < |r| ==> r[i].name == amenities[i] && r[i].icon == IconFor(amenities[i])
  {
    if |amenities| <= PreviewSize then Badges(amenities) else Badges(amenities[..PreviewSize])
  }

  /** The "+k more" note after the badges. */
  datatype MoreNote = NoNote | More(count: nat)

  /** The note counts the amenities left without a badge, and appears only when there are some. */
  function MoreAmenities(amenities: seq<string>): (r: MoreNote)
    ensures r.More? <==> |amenities| > PreviewSize
    ensures r.More? ==> r.count > 0 && PreviewSize + r.count == |amenities|
  {
    if |amenities| > PreviewSize then More(|amenities| - PreviewSize) else NoNote
  }

  /** The note appears exactly when some amenity has no badge, and badges
      plus the count in the note account for every amenity. */
  lemma PreviewAccountsForAll(amenities: seq<string>)
    ensures MoreAmenities(amenities).More? <==> |TopAmenities(amenities)| < |amenities|
    ensures |TopAmenities(amenities)|
      + (if MoreAmenities(amenities).More? then MoreAmenities(amenities).count else 0) == |amenities|
  {
  }

  /** Every sample listing has more amenities than the card previews: each
      card leads with the WiFi badge and ends with a "+k more" note. */
  lemma SampleCardsPreview()
    ensures forall p :: p in SamplePGs ==>
      MoreAmenities(p.amenities) == More(|p.amenities| - 3)
      && TopAmenities(p.amenities)[0] == AmenityBadge("WiFi", WifiIcon)
  {
  }
}
