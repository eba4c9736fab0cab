/**
 * The user record that the services update in place: an append-only visit
 * history, a reward list and the trip deals last offered.
 */
module Users {
  import opened Gps

  /** A reward earned at `attraction` because of `visitedLocation`. */
  datatype UserReward = UserReward(visitedLocation: VisitedLocation, attraction: Attraction, rewardPoints: int)

  /** Trip preferences read by the trip pricer. */
  datatype UserPreferences = UserPreferences(tripDuration: int, numberOfAdults: int, numberOfChildren: int)

  /** A trip offer of the pricing provider. */
  datatype Provider = Provider(name: string, price: real, tripId: UUID)

  class User {
    const userId: UUID
    const userName: string
    var visitedLocations: seq<VisitedLocation>
    var userRewards: seq<UserReward>
    var userPreferences: UserPreferences
    var tripDeals: seq<Provider>

    constructor (userId: UUID, userName: string, preferences: UserPreferences)
      ensures this.userId == userId && this.userName == userName
      ensures visitedLocations == [] && userRewards == [] && tripDeals == []
      ensures userPreferences == preferences
    {
      this.userId := userId;
      this.userName := userName;
      visitedLocations := [];
      userRewards := [];
      userPreferences := preferences;
      tripDeals := [];
    }

    /** Appends one observation to the end of the history. */
    method AddToVisitedLocations(v: VisitedLocation)
      modifies this`visitedLocations
      ensures visitedLocations == old(visitedLocations) + [v]
    {
      visitedLocations := visitedLocations + [v];
    }

    /** Appends one reward to the end of the reward list. */
    method AddUserReward(r: UserReward)
      modifies this`userRewards
      ensures userRewards == old(userRewards) + [r]
    {
      userRewards := userRewards + [r];
    }

    method SetTripDeals(deals: seq<Provider>)
      modifies this`tripDeals
      ensures tripDeals == deals
    {
      tripDeals := deals;
    }

    /** The most recent observation of a user with a non-empty history. */
    function LastVisitedLocation(): (v: VisitedLocation)
      reads this
      requires visitedLocations != []
      ensures v in visitedLocations
      ensures visitedLocations == visitedLocations[..|visitedLocations| - 1] + [v]
    {
      visitedLocations[|visitedLocations| - 1]
    }
  }
}
