/**
 * Value types of the location provider library (gpsUtil): coordinates,
 * timestamped visits and catalog attractions. The provider itself is an
 * external collaborator; only its data shapes are modelled here.
 */
module Gps {

  /** A 128-bit universally unique identifier, opaque to this model. */
  type UUID = int

  /** Degrees of latitude and longitude; Java doubles are modelled as reals. */
  datatype Location = Location(latitude: real, longitude: real)

  /** One observation of a user's position; `timeVisited` stands for the Java Date. */
  datatype VisitedLocation = VisitedLocation(userId: UUID, location: Location, timeVisited: int)

  /**
   * A point of interest of the catalog. In the library an Attraction is a
   * subclass of Location; `Loc()` is the attraction seen as that Location.
   */
  datatype Attraction = Attraction(
    attractionName: string,
    city: string,
    state: string,
    attractionId: UUID,
    latitude: real,
    longitude: real)
  {
    function Loc(): (l: Location)
      ensures l.latitude == latitude && l.longitude == longitude
    {
      Location(latitude, longitude)
    }
  }

  /** The great-circle distance in statute miles, supplied by the caller. */
  type Distance = (Location, Location) -> real
}
