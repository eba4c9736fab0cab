/**
 * The reward service: its proximity settings, the two proximity predicates
 * and the attribution pass over one user, run sequentially.
 */
module Rewards {
  import opened Gps
  import opened Users
  import opened Attribution

  /** `!(d > limit)`: a distance exactly at the limit is still within it. */
  predicate Within(d: real, limit: int)
  {
    !(d > limit as real)
  }

  class RewardsService {
    /** Reward proximity, in miles, that `SetDefaultProximityBuffer` restores. */
    const defaultProximityBuffer: int := 10
    /** Current reward proximity in miles. */
    var proximityBuffer: int
    /** Display proximity in miles for `IsWithinAttractionProximity`; nothing changes it. */
    const attractionProximityRange: int := 200
    /** Great-circle distance of the location provider's coordinates. */
    const getDistance: Distance
    /** The attraction catalog of the location provider. */
    const attractions: seq<Attraction>
    /** Reward points of the scoring provider for (attraction id, user id). */
    const attractionRewardPoints: (UUID, UUID) -> int

    constructor (attractions: seq<Attraction>, getDistance: Distance, attractionRewardPoints: (UUID, UUID) -> int)
      ensures proximityBuffer == defaultProximityBuffer == 10
      ensures attractionProximityRange == 200
      ensures this.attractions == attractions && this.getDistance == getDistance
      ensures this.attractionRewardPoints == attractionRewardPoints
    {
      proximityBuffer := defaultProximityBuffer;
      this.attractions := attractions;
      this.getDistance := getDistance;
      this.attractionRewardPoints := attractionRewardPoints;
    }

    method SetProximityBuffer(proximityBuffer: int)
      modifies this`proximityBuffer
      ensures this.proximityBuffer == proximityBuffer
      ensures attractionProximityRange == 200
    {
      this.proximityBuffer := proximityBuffer;
    }

    method SetDefaultProximityBuffer()
      modifies this`proximityBuffer
      ensures proximityBuffer == 10
      ensures attractionProximityRange == 200
    {
      proximityBuffer := defaultProximityBuffer;
    }

    /** The display-nearness predicate, inclusive at the range. */
    function IsWithinAttractionProximity(attraction: Attraction, location: Location): (r: bool)
      reads this
      ensures r <==> getDistance(attraction.Loc(), location) <= 200 as real
    {
      Within(getDistance(attraction.Loc(), location), attractionProximityRange)
    }

    /** The reward-eligibility predicate, inclusive at the buffer. */
    function NearAttraction(visitedLocation: VisitedLocation, attraction: Attraction): (r: bool)
      reads this
      ensures r <==> getDistance(attraction.Loc(), visitedLocation.location) <= proximityBuffer as real
    {
      Within(getDistance(attraction.Loc(), visitedLocation.location), proximityBuffer)
    }

    /** `NearAttraction` under the current buffer, as a value the specification can take. */
    ghost function Near(): (near: NearRule)
      reads this
      ensures forall v, a :: near(v, a) == NearAttraction(v, a)
    {
      var distance, buffer := getDistance, proximityBuffer;
      (v: VisitedLocation, a: Attraction) => Within(distance(a.Loc(), v.location), buffer)
    }

    /** The scoring provider applied to one user. */
    ghost function PointsFor(userId: UUID): (points: PointsRule)
      ensures forall a :: points(a) == attractionRewardPoints(a.attractionId, userId)
    {
      var central := attractionRewardPoints;
      (a: Attraction) => central(a.attractionId, userId)
    }

    /**
     * One attribution pass: for each visited location, for each catalog
     * attraction in order, reward the attraction when no reward names it yet
     * and it is near. The history is only read.
     */
    method CalculateRewards(user: User)
      modifies user`userRewards
      ensures user.visitedLocations == old(user.visitedLocations)
      ensures user.userRewards == RewardPass(old(user.userRewards), user.visitedLocations, attractions, Near(), PointsFor(user.userId))
      ensures old(user.userRewards) <= user.userRewards
      ensures forall k :: old(|user.userRewards|) <= k < |user.userRewards| ==>
        Earned(user.userRewards[k], user.visitedLocations, attractions, Near(), PointsFor(user.userId))
      ensures DistinctNames(old(user.userRewards)) ==> DistinctNames(user.userRewards)
      ensures Complete(user.userRewards, user.visitedLocations, attractions, Near())
    {
      ghost var near, points := Near(), PointsFor(user.userId);
      ghost var before := user.userRewards;
      var userLocations := user.visitedLocations;
      var catalog := attractions;
      var i := 0;
      while i < |userLocations|
        invariant 0 <= i <= |userLocations|
        invariant user.userRewards == RewardPass(before, userLocations[..i], catalog, near, points)
      {
        var visitedLocation := userLocations[i];
        ghost var start := user.userRewards;
        var j := 0;
        while j < |catalog|
          invariant 0 <= j <= |catalog|
          invariant user.userRewards == ScanCatalog(start, visitedLocation, catalog[..j], near, points)
        {
          var attraction := catalog[j];
          var alreadyRewarded := AlreadyRewarded(user.userRewards, attraction.attractionName);
          if !alreadyRewarded && NearAttraction(visitedLocation, attraction) {
            var rewardPoints := attractionRewardPoints(attraction.attractionId, user.userId);
            user.AddUserReward(UserReward(visitedLocation, attraction, rewardPoints));
          }
          assert catalog[..j + 1][..j] == catalog[..j];
          j := j + 1;
        }
        assert catalog[..j] == catalog;
        assert userLocations[..i + 1][..i] == userLocations[..i];
        i := i + 1;
      }
      assert userLocations[..i] == userLocations;
      RewardPassAppends(before, userLocations, catalog, near, points);
      if DistinctNames(before) {
        RewardPassKeepsDistinct(before, userLocations, catalog, near, points);
      }
      RewardPassComplete(before, userLocations, catalog, near, points);
    }
  }

  /**
   * The bulk-rewards scenario: a history holding a visit on the coordinates
   * of a catalog attraction earns at least one reward, given that the
   * distance from those coordinates to themselves is within the buffer
   * (the distance formula itself is not modelled).
   */
  lemma VisitAtAttractionEarnsReward(service: RewardsService, rewards: seq<UserReward>, visits: seq<VisitedLocation>,
                                     userId: UUID, a: Attraction, v: VisitedLocation)
    requires a in service.attractions && v in visits && v.location == a.Loc()
    requires service.getDistance(a.Loc(), a.Loc()) <= service.proximityBuffer as real
    ensures RewardPass(rewards, visits, service.attractions, service.Near(), service.PointsFor(userId)) != []
  {
    assert service.NearAttraction(v, a);
    VisitNearAttractionIsRewarded(rewards, visits, service.attractions, service.Near(), service.PointsFor(userId), v, a);
  }
}
