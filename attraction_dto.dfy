/**
 * The nearby-attraction summary handed to clients: a mutable object of five
 * fields with setters, field-wise equality and a hash over the same fields.
 */
module Pojo {
  import opened Gps
  import opened JavaInt

  /** The five fields of a summary, as one value. */
  datatype AttractionView = AttractionView(
    name: string,
    attractionLocation: Location,
    userLocation: Location,
    distance: real,
    rewardPoint: int)

  /**
   * Hash codes of the field types whose `hashCode` is library code (String,
   * Location, Double); an int field hashes to itself.
   */
  datatype ElementHashes = ElementHashes(text: string -> int, location: Location -> int, double: real -> int)

  /** `Objects.hash`: start from 1 and fold `31 * h + e` over the element hashes in int arithmetic. */
  function CombineHashes(hs: seq<int>): (h: int)
    ensures InRange(h)
    ensures hs == [] ==> h == 1
  {
    if hs == [] then 1
    else Wrap(31 * CombineHashes(hs[..|hs| - 1]) + hs[|hs| - 1])
  }

  /** The hash of a summary, a function of its five fields only. */
  function HashOf(v: AttractionView, hashes: ElementHashes): (h: int)
    ensures InRange(h)
  {
    CombineHashes([hashes.text(v.name), hashes.location(v.attractionLocation),
                   hashes.location(v.userLocation), hashes.double(v.distance), v.rewardPoint])
  }

  class AttractionDTO {
    var name: string
    var attractionLocation: Location
    var userLocation: Location
    var distance: real
    var rewardPoint: int

    constructor (attractionName: string, attractionLocation: Location, userLocation: Location, distance: real, attractionRewardPoints: int)
      ensures View() == AttractionView(attractionName, attractionLocation, userLocation, distance, attractionRewardPoints)
    {
      this.name := attractionName;
      this.attractionLocation := attractionLocation;
      this.userLocation := userLocation;
      this.distance := distance;
      this.rewardPoint := attractionRewardPoints;
    }

    /** The five fields as one value; the Java getters read its components. */
    function View(): AttractionView
      reads this
    {
      AttractionView(name, attractionLocation, userLocation, distance, rewardPoint)
    }

    method SetAttractionLocation(attractionLocation: Location)
      modifies this`attractionLocation
      ensures View() == old(View()).(attractionLocation := attractionLocation)
    {
      this.attractionLocation := attractionLocation;
    }

    method SetDistance(distance: real)
      modifies this`distance
      ensures View() == old(View()).(distance := distance)
    {
      this.distance := distance;
    }

    method SetName(name: string)
      modifies this`name
      ensures View() == old(View()).(name := name)
    {
      this.name := name;
    }

    method SetRewardPoint(rewardPoint: int)
      modifies this`rewardPoint
      ensures View() == old(View()).(rewardPoint := rewardPoint)
    {
      this.rewardPoint := rewardPoint;
    }

    method SetUserLocation(userLocation: Location)
      modifies this`userLocation
      ensures View() == old(View()).(userLocation := userLocation)
    {
      this.userLocation := userLocation;
    }

    /**
     * `equals(Object)`: the same object, or another summary with the same
     * five fields; never null or an object of another class.
     */
    function Equals(o: object?): (r: bool)
      reads this, o
      ensures o == this ==> r
      ensures o == null || !(o is AttractionDTO) ==> !r
      ensures o != null && o is AttractionDTO ==> (r <==> View() == (o as AttractionDTO).View())
    {
      if this == o then true
      else if o == null || !(o is AttractionDTO) then false
      else
        var that := o as AttractionDTO;
        rewardPoint == that.rewardPoint && name == that.name && attractionLocation == that.attractionLocation
        && userLocation == that.userLocation && distance == that.distance
    }

    /** `hashCode()`: `Objects.hash` of the five fields. */
    function HashCode(hashes: ElementHashes): (h: int)
      reads this
      ensures InRange(h)
      ensures h == HashOf(View(), hashes)
    {
      CombineHashes([hashes.text(name), hashes.location(attractionLocation),
                     hashes.location(userLocation), hashes.double(distance), rewardPoint])
    }
  }

  /** `equals` is symmetric and transitive between summaries. */
  lemma EqualsIsEquivalence(x: AttractionDTO, y: AttractionDTO, z: AttractionDTO)
    ensures x.Equals(x)
    ensures x.Equals(y) == y.Equals(x)
    ensures x.Equals(y) && y.Equals(z) ==> x.Equals(z)
  {
  }

  /** Summaries that are `equals` have the same `hashCode`. */
  lemma EqualsAgreesWithHashCode(x: AttractionDTO, y: AttractionDTO, hashes: ElementHashes)
    requires x.Equals(y)
    ensures x.HashCode(hashes) == y.HashCode(hashes)
  {
  }
}
