/**
 * The tour guide service: location tracking (fetch, append to the history,
 * then one attribution pass), the last-known-location query, the five
 * nearest attractions, the in-memory user directory and trip deals. The
 * asynchronous composition of the source is modelled as sequential
 * composition: each call runs to its end before the next begins.
 */
module TourGuide {
  import opened Gps
  import opened Users
  import opened Attribution
  import opened Rewards
  import opened StableSort
  import opened Pojo
  import opened JavaInt

  /** The key passed to the trip pricer. */
  const TripPricerApiKey: string := "test-server-api-key"

  /** How many attractions the nearby query returns. */
  const NearbyCount: nat := 5

  /** The trip pricer: (api key, user id, adults, children, nights, reward points) to offers. */
  type TripPricer = (string, UUID, int, int, int, int) -> seq<Provider>

  /** The mathematical sum of the reward points. */
  function TotalRewardPoints(rewards: seq<UserReward>): int
  {
    if rewards == [] then 0
    else TotalRewardPoints(rewards[..|rewards| - 1]) + rewards[|rewards| - 1].rewardPoints
  }

  /** `IntStream.sum` of the reward points: int additions, left to right. */
  function CumulativeRewardPoints(rewards: seq<UserReward>): (total: int)
    ensures InRange(total)
  {
    if rewards == [] then 0
    else Wrap(CumulativeRewardPoints(rewards[..|rewards| - 1]) + rewards[|rewards| - 1].rewardPoints)
  }

  /**
   * The stream sum is the true total wrapped once into int range, so it is
   * the true total whenever that fits in an int.
   */
  lemma {:induction false} CumulativeIsWrappedTotal(rewards: seq<UserReward>)
    ensures CumulativeRewardPoints(rewards) == Wrap(TotalRewardPoints(rewards))
    ensures InRange(TotalRewardPoints(rewards)) ==> CumulativeRewardPoints(rewards) == TotalRewardPoints(rewards)
    decreases |rewards|
  {
    if rewards != [] {
      var n := |rewards| - 1;
      CumulativeIsWrappedTotal(rewards[..n]);
      WrapAdd(TotalRewardPoints(rewards[..n]), rewards[n].rewardPoints);
    }
  }

  /** Distance from an attraction to the visited location: the sort key of the nearby query. */
  function DistanceTo(getDistance: Distance, visitedLocation: VisitedLocation): Attraction -> real
  {
    (a: Attraction) => getDistance(a.Loc(), visitedLocation.location)
  }

  /** The summary of one attraction as seen from a visited location. */
  function Summary(a: Attraction, visitedLocation: VisitedLocation, getDistance: Distance, points: (UUID, UUID) -> int): (s: AttractionView)
    ensures s.name == a.attractionName && s.attractionLocation == a.Loc()
    ensures s.userLocation == visitedLocation.location
    ensures s.distance == DistanceTo(getDistance, visitedLocation)(a)
    ensures s.rewardPoint == points(a.attractionId, visitedLocation.userId)
  {
    AttractionView(a.attractionName, a.Loc(), visitedLocation.location,
                   getDistance(a.Loc(), visitedLocation.location), points(a.attractionId, visitedLocation.userId))
  }

  /** A listing that names every key of the directory lists exactly its users. */
  lemma ListingCoversValues(directory: map<string, User>, users: seq<User>, names: seq<string>)
    requires |users| == |names|
    requires forall i :: 0 <= i < |names| ==> names[i] in directory && users[i] == directory[names[i]]
    requires forall n :: n in directory ==> n in names
    ensures forall u :: u in users <==> u in directory.Values
  {
  }

  /** When every user is stored under its own name, distinct names list distinct users. */
  lemma ListingIsDuplicateFree(directory: map<string, User>, users: seq<User>, names: seq<string>)
    requires |users| == |names|
    requires forall i :: 0 <= i < |names| ==> names[i] in directory && users[i] == directory[names[i]]
    requires forall i, j :: 0 <= i < j < |names| ==> names[i] != names[j]
    requires forall n :: n in directory ==> directory[n].userName == n
    ensures forall i, j :: 0 <= i < j < |users| ==> users[i] != users[j]
  {
  }

  class TourGuideService {
    /** The attraction catalog of the location provider. */
    const attractions: seq<Attraction>
    const rewardsService: RewardsService
    /** Reward points of the scoring provider for (attraction id, user id). */
    const attractionRewardPoints: (UUID, UUID) -> int
    const tripPricer: TripPricer
    /** The user directory, keyed by user name. */
    var internalUserMap: map<string, User>

    /** Every user is registered under its own name. */
    predicate Valid()
      reads this
    {
      forall n :: n in internalUserMap ==> internalUserMap[n].userName == n
    }

    /**
     * `initialUsers` stands for the generated test users the source starts
     * with, each stored under its own name. Both services read the catalog
     * of the same location provider.
     */
    constructor (attractions: seq<Attraction>, rewardsService: RewardsService, attractionRewardPoints: (UUID, UUID) -> int,
                 tripPricer: TripPricer, initialUsers: map<string, User>)
      requires attractions == rewardsService.attractions
      requires forall n :: n in initialUsers ==> initialUsers[n].userName == n
      ensures Valid()
      ensures this.attractions == attractions == rewardsService.attractions && this.rewardsService == rewardsService
      ensures this.attractionRewardPoints == attractionRewardPoints && this.tripPricer == tripPricer
      ensures internalUserMap == initialUsers
    {
      this.attractions := attractions;
      this.rewardsService := rewardsService;
      this.attractionRewardPoints := attractionRewardPoints;
      this.tripPricer := tripPricer;
      internalUserMap := initialUsers;
    }

    /**
     * Fetches the user's location from `gps`, appends it to the history and
     * runs one attribution pass over the extended history.
     */
    method TrackUserLocation(user: User, gps: UUID -> VisitedLocation) returns (visitedLocation: VisitedLocation)
      modifies user`visitedLocations, user`userRewards
      ensures visitedLocation == gps(user.userId)
      ensures user.visitedLocations == old(user.visitedLocations) + [visitedLocation]
      ensures user.userRewards == RewardPass(old(user.userRewards), user.visitedLocations, rewardsService.attractions,
                                             rewardsService.Near(), rewardsService.PointsFor(user.userId))
      ensures DistinctNames(old(user.userRewards)) ==> DistinctNames(user.userRewards)
      ensures Complete(user.userRewards, user.visitedLocations, rewardsService.attractions, rewardsService.Near())
    {
      visitedLocation := gps(user.userId);
      user.AddToVisitedLocations(visitedLocation);
      rewardsService.CalculateRewards(user);
    }

    /**
     * The last known location; a user without history is tracked instead.
     */
    method GetUserLocation(user: User, gps: UUID -> VisitedLocation) returns (visitedLocation: VisitedLocation)
      modifies user`visitedLocations, user`userRewards
      ensures old(user.visitedLocations) != [] ==>
        && user.visitedLocations == old(user.visitedLocations)
        && visitedLocation == user.LastVisitedLocation()
        && user.userRewards == old(user.userRewards)
      ensures old(user.visitedLocations) == [] ==>
        && visitedLocation == gps(user.userId)
        && user.visitedLocations == [visitedLocation]
        && user.userRewards == RewardPass(old(user.userRewards), [visitedLocation], rewardsService.attractions,
                                          rewardsService.Near(), rewardsService.PointsFor(user.userId))
    {
      if user.visitedLocations == [] {
        visitedLocation := TrackUserLocation(user, gps);
      } else {
        visitedLocation := user.LastVisitedLocation();
      }
    }

    /** The user registered under `userName`, or null. */
    function GetUser(userName: string): (user: User?)
      reads this
      ensures user != null <==> userName in internalUserMap
      ensures userName in internalUserMap ==> user == internalUserMap[userName]
      ensures Valid() && user != null ==> user.userName == userName
    {
      if userName in internalUserMap then internalUserMap[userName] else null
    }

    /**
     * Every registered user, in no particular order: `names` lists each
     * registered name once and `users` the user stored under each.
     */
    method GetAllUsers() returns (users: seq<User>, ghost names: seq<string>)
      ensures |users| == |names| == |internalUserMap|
      ensures forall i :: 0 <= i < |names| ==> names[i] in internalUserMap && users[i] == internalUserMap[names[i]]
      ensures forall n :: n in internalUserMap ==> n in names
      ensures forall i, j :: 0 <= i < j < |names| ==> names[i] != names[j]
      ensures forall u :: u in users <==> u in internalUserMap.Values
      ensures Valid() ==> forall i, j :: 0 <= i < j < |users| ==> users[i] != users[j]
    {
      users, names := [], [];
      var remaining := internalUserMap.Keys;
      ghost var listed: set<string> := {};
      while remaining != {}
        invariant remaining !! listed && remaining + listed == internalUserMap.Keys
        invariant |users| == |names| == |listed|
        invariant forall i :: 0 <= i < |names| ==> names[i] in listed && users[i] == internalUserMap[names[i]]
        invariant forall n :: n in listed ==> n in names
        invariant forall i, j :: 0 <= i < j < |names| ==> names[i] != names[j]
        decreases remaining
      {
        var name :| name in remaining;
        users, names := users + [internalUserMap[name]], names + [name];
        remaining, listed := remaining - {name}, listed + {name};
      }
      assert |internalUserMap| == |internalUserMap.Keys|;
      ListingCoversValues(internalUserMap, users, names);
      if Valid() {
        ListingIsDuplicateFree(internalUserMap, users, names);
      }
    }

    /** Registers `user` under its name unless that name is taken. */
    method AddUser(user: User)
      requires Valid()
      modifies this`internalUserMap
      ensures Valid()
      ensures user.userName in old(internalUserMap) ==> internalUserMap == old(internalUserMap)
      ensures user.userName !in old(internalUserMap) ==> internalUserMap == old(internalUserMap)[user.userName := user]
      ensures GetUser(user.userName) != null
      ensures forall n :: n in old(internalUserMap) ==> n in internalUserMap && internalUserMap[n] == old(internalUserMap)[n]
    {
      if user.userName !in internalUserMap {
        internalUserMap := internalUserMap[user.userName := user];
      }
    }

    /**
     * Prices trips for the user's preferences and reward points, and stores
     * the offers on the user.
     */
    method GetTripDeals(user: User) returns (providers: seq<Provider>)
      modifies user`tripDeals
      ensures providers == tripPricer(TripPricerApiKey, user.userId, user.userPreferences.numberOfAdults,
                                      user.userPreferences.numberOfChildren, user.userPreferences.tripDuration,
                                      CumulativeRewardPoints(user.userRewards))
      ensures user.tripDeals == providers
    {
      var cumulativeRewardPoints := CumulativeRewardPoints(user.userRewards);
      providers := tripPricer(TripPricerApiKey, user.userId, user.userPreferences.numberOfAdults,
                              user.userPreferences.numberOfChildren, user.userPreferences.tripDuration, cumulativeRewardPoints);
      user.SetTripDeals(providers);
    }

    /** The catalog sorted stably by distance to `visitedLocation`, cut to the first five. */
    ghost function Nearby(visitedLocation: VisitedLocation): seq<Attraction>
      reads this, rewardsService
    {
      Smallest(attractions, DistanceTo(rewardsService.getDistance, visitedLocation), NearbyCount)
    }

    /** The map step of the nearby query: one fresh summary per attraction, in order. */
    method ToSummaries(nearby: seq<Attraction>, visitedLocation: VisitedLocation) returns (dtos: seq<AttractionDTO>)
      ensures |dtos| == |nearby|
      ensures forall i :: 0 <= i < |dtos| ==> fresh(dtos[i])
      ensures forall i :: 0 <= i < |dtos| ==>
        dtos[i].View() == Summary(nearby[i], visitedLocation, rewardsService.getDistance, attractionRewardPoints)
    {
      dtos := [];
      var i := 0;
      while i < |nearby|
        invariant 0 <= i <= |nearby| && |dtos| == i
        invariant forall k :: 0 <= k < i ==> fresh(dtos[k])
        invariant forall k :: 0 <= k < i ==>
          dtos[k].View() == Summary(nearby[k], visitedLocation, rewardsService.getDistance, attractionRewardPoints)
      {
        var attraction := nearby[i];
        var dto := new AttractionDTO(attraction.attractionName, attraction.Loc(), visitedLocation.location,
                                     rewardsService.getDistance(attraction.Loc(), visitedLocation.location),
                                     attractionRewardPoints(attraction.attractionId, visitedLocation.userId));
        dtos := dtos + [dto];
        i := i + 1;
      }
    }

    /**
     * The five attractions nearest to `visitedLocation`, nearest first, ties
     * in catalog order, each as a fresh summary.
     */
    method GetNearByAttractions(visitedLocation: VisitedLocation) returns (dtos: seq<AttractionDTO>)
      ensures |dtos| == |Nearby(visitedLocation)| == (if NearbyCount < |attractions| then NearbyCount else |attractions|)
      ensures forall i :: 0 <= i < |dtos| ==> fresh(dtos[i])
      ensures forall i :: 0 <= i < |dtos| ==>
        dtos[i].View() == Summary(Nearby(visitedLocation)[i], visitedLocation, rewardsService.getDistance, attractionRewardPoints)
      ensures forall i, j :: 0 <= i < j < |dtos| ==> dtos[i].distance <= dtos[j].distance
      ensures multiset(Nearby(visitedLocation)) <= multiset(attractions)
      ensures var key := DistanceTo(rewardsService.getDistance, visitedLocation);
        forall x, y :: x in Nearby(visitedLocation) && y in multiset(attractions) - multiset(Nearby(visitedLocation)) ==> key(x) <= key(y)
      ensures var key := DistanceTo(rewardsService.getDistance, visitedLocation);
        forall k :: WithKey(Nearby(visitedLocation), key, k) <= WithKey(attractions, key, k)
    {
      var key := DistanceTo(rewardsService.getDistance, visitedLocation);
      var nearby := Smallest(attractions, key, NearbyCount);
      SmallestShape(attractions, key, NearbyCount);
      SmallestAreNearest(attractions, key, NearbyCount);
      forall k ensures WithKey(nearby, key, k) <= WithKey(attractions, key, k) {
        SmallestKeepsInputOrder(attractions, key, NearbyCount, k);
      }
      dtos := ToSummaries(nearby, visitedLocation);
      forall i, j | 0 <= i < j < |dtos|
        ensures dtos[i].distance <= dtos[j].distance
      {
        assert dtos[i].distance == dtos[i].View().distance == key(nearby[i]);
        assert dtos[j].distance == dtos[j].View().distance == key(nearby[j]);
      }
    }
  }
}
