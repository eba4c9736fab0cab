/**
 * The reward attribution pass as a specification: the reward list that the
 * nested loop of `calculateRewards` leaves behind, written as a function of
 * the list it starts from, the visit history and the catalog. The lemmas
 * state what the pass promises: it only appends, it never rewards an
 * attraction name twice, every reward it adds is earned, it misses no near
 * pair, and running it again changes nothing.
 *
 * `near` is the proximity rule of the service and `points` the reward-points
 * provider already applied to the user's identifier.
 */
module Attribution {
  import opened Gps
  import opened Users

  type NearRule = (VisitedLocation, Attraction) -> bool
  type PointsRule = Attraction -> int

  /** Some reward of the list is for an attraction with this name. */
  predicate AlreadyRewarded(rewards: seq<UserReward>, attractionName: string)
  {
    exists r :: r in rewards && r.attraction.attractionName == attractionName
  }

  /** One iteration of the inner loop: reward `a` if it is unrewarded and near `v`. */
  function Step(rewards: seq<UserReward>, v: VisitedLocation, a: Attraction, near: NearRule, points: PointsRule): seq<UserReward>
  {
    if !AlreadyRewarded(rewards, a.attractionName) && near(v, a)
    then rewards + [UserReward(v, a, points(a))]
    else rewards
  }

  /** The inner loop: the catalog scanned in order against one visited location. */
  function ScanCatalog(rewards: seq<UserReward>, v: VisitedLocation, attractions: seq<Attraction>, near: NearRule, points: PointsRule): seq<UserReward>
    decreases |attractions|
  {
    if attractions == [] then rewards
    else
      var n := |attractions| - 1;
      Step(ScanCatalog(rewards, v, attractions[..n], near, points), v, attractions[n], near, points)
  }

  /** The outer loop: every visited location of the history, in order. */
  function RewardPass(rewards: seq<UserReward>, visits: seq<VisitedLocation>, attractions: seq<Attraction>, near: NearRule, points: PointsRule): seq<UserReward>
    decreases |visits|
  {
    if visits == [] then rewards
    else
      var n := |visits| - 1;
      ScanCatalog(RewardPass(rewards, visits[..n], attractions, near, points), visits[n], attractions, near, points)
  }

  /** No two rewards of the list name the same attraction. */
  predicate DistinctNames(rewards: seq<UserReward>)
  {
    forall i, j :: 0 <= i < j < |rewards| ==> rewards[i].attraction.attractionName != rewards[j].attraction.attractionName
  }

  /** A reward the pass may create: a visit of the history near a catalog attraction, scored by the provider. */
  predicate Earned(r: UserReward, visits: seq<VisitedLocation>, attractions: seq<Attraction>, near: NearRule, points: PointsRule)
  {
    && r.visitedLocation in visits
    && r.attraction in attractions
    && near(r.visitedLocation, r.attraction)
    && r.rewardPoints == points(r.attraction)
  }

  /** Every near pair of the history and the catalog has a reward for that attraction's name. */
  predicate Complete(rewards: seq<UserReward>, visits: seq<VisitedLocation>, attractions: seq<Attraction>, near: NearRule)
  {
    forall v, a :: v in visits && a in attractions && near(v, a) ==> AlreadyRewarded(rewards, a.attractionName)
  }

  lemma AlreadyRewardedGrows(rewards: seq<UserReward>, longer: seq<UserReward>, attractionName: string)
    requires rewards <= longer
    requires AlreadyRewarded(rewards, attractionName)
    ensures AlreadyRewarded(longer, attractionName)
  {
  }

  /** The inner loop only appends, and each appended reward is earned by `v`. */
  lemma {:induction false} ScanCatalogAppends(rewards: seq<UserReward>, v: VisitedLocation, attractions: seq<Attraction>, near: NearRule, points: PointsRule)
    ensures var r := ScanCatalog(rewards, v, attractions, near, points);
      && rewards <= r
      && forall k :: |rewards| <= k < |r| ==> Earned(r[k], [v], attractions, near, points)
    decreases |attractions|
  {
    if attractions != [] {
      var n := |attractions| - 1;
      var front := attractions[..n];
      ScanCatalogAppends(rewards, v, front, near, points);
      var mid := ScanCatalog(rewards, v, front, near, points);
      assert forall a :: a in front ==> a in attractions;
      assert forall k :: |rewards| <= k < |mid| ==> Earned(mid[k], [v], attractions, near, points);
    }
  }

  /** The pass only appends: the old rewards stay in place, and every new one is earned. */
  lemma {:induction false} RewardPassAppends(rewards: seq<UserReward>, visits: seq<VisitedLocation>, attractions: seq<Attraction>, near: NearRule, points: PointsRule)
    ensures var r := RewardPass(rewards, visits, attractions, near, points);
      && rewards <= r
      && forall k :: |rewards| <= k < |r| ==> Earned(r[k], visits, attractions, near, points)
    decreases |visits|
  {
    if visits != [] {
      var n := |visits| - 1;
      var front := visits[..n];
      RewardPassAppends(rewards, front, attractions, near, points);
      var mid := RewardPass(rewards, front, attractions, near, points);
      ScanCatalogAppends(mid, visits[n], attractions, near, points);
      assert forall w :: w in front ==> w in visits;
      assert visits[n] in visits;
    }
  }

  lemma StepKeepsDistinct(rewards: seq<UserReward>, v: VisitedLocation, a: Attraction, near: NearRule, points: PointsRule)
    requires DistinctNames(rewards)
    ensures DistinctNames(Step(rewards, v, a, near, points))
  {
  }

  lemma {:induction false} ScanCatalogKeepsDistinct(rewards: seq<UserReward>, v: VisitedLocation, attractions: seq<Attraction>, near: NearRule, points: PointsRule)
    requires DistinctNames(rewards)
    ensures DistinctNames(ScanCatalog(rewards, v, attractions, near, points))
    decreases |attractions|
  {
    if attractions != [] {
      var n := |attractions| - 1;
      ScanCatalogKeepsDistinct(rewards, v, attractions[..n], near, points);
      StepKeepsDistinct(ScanCatalog(rewards, v, attractions[..n], near, points), v, attractions[n], near, points);
    }
  }

  /** At most one reward per attraction name is an invariant of the pass. */
  lemma {:induction false} RewardPassKeepsDistinct(rewards: seq<UserReward>, visits: seq<VisitedLocation>, attractions: seq<Attraction>, near: NearRule, points: PointsRule)
    requires DistinctNames(rewards)
    ensures DistinctNames(RewardPass(rewards, visits, attractions, near, points))
    decreases |visits|
  {
    if visits != [] {
      var n := |visits| - 1;
      RewardPassKeepsDistinct(rewards, visits[..n], attractions, near, points);
      ScanCatalogKeepsDistinct(RewardPass(rewards, visits[..n], attractions, near, points), visits[n], attractions, near, points);
    }
  }

  /** After the inner loop every catalog attraction near `v` is rewarded. */
  lemma {:induction false} ScanCatalogComplete(rewards: seq<UserReward>, v: VisitedLocation, attractions: seq<Attraction>, near: NearRule, points: PointsRule)
    ensures Complete(ScanCatalog(rewards, v, attractions, near, points), [v], attractions, near)
    decreases |attractions|
  {
    if attractions != [] {
      var n := |attractions| - 1;
      var front := attractions[..n];
      var mid := ScanCatalog(rewards, v, front, near, points);
      var r := Step(mid, v, attractions[n], near, points);
      ScanCatalogComplete(rewards, v, front, near, points);
      assert mid <= r;
      forall w, a | w in [v] && a in attractions && near(w, a)
        ensures AlreadyRewarded(r, a.attractionName)
      {
        if a in front {
          AlreadyRewardedGrows(mid, r, a.attractionName);
        } else {
          assert a == attractions[n];
          if !AlreadyRewarded(mid, a.attractionName) {
            assert r[|mid|] == UserReward(v, a, points(a));
          } else {
            AlreadyRewardedGrows(mid, r, a.attractionName);
          }
        }
      }
    }
  }

  /** Completeness: after the pass every near (visit, attraction) pair is rewarded. */
  lemma {:induction false} RewardPassComplete(rewards: seq<UserReward>, visits: seq<VisitedLocation>, attractions: seq<Attraction>, near: NearRule, points: PointsRule)
    ensures Complete(RewardPass(rewards, visits, attractions, near, points), visits, attractions, near)
    decreases |visits|
  {
    if visits != [] {
      var n := |visits| - 1;
      var front := visits[..n];
      var mid := RewardPass(rewards, front, attractions, near, points);
      var r := ScanCatalog(mid, visits[n], attractions, near, points);
      RewardPassComplete(rewards, front, attractions, near, points);
      ScanCatalogComplete(mid, visits[n], attractions, near, points);
      ScanCatalogAppends(mid, visits[n], attractions, near, points);
      forall w, a | w in visits && a in attractions && near(w, a)
        ensures AlreadyRewarded(r, a.attractionName)
      {
        if w in front {
          AlreadyRewardedGrows(mid, r, a.attractionName);
        } else {
          assert w in [visits[n]];
        }
      }
    }
  }

  lemma {:induction false} ScanCatalogNoOp(rewards: seq<UserReward>, v: VisitedLocation, attractions: seq<Attraction>, near: NearRule, points: PointsRule)
    requires Complete(rewards, [v], attractions, near)
    ensures ScanCatalog(rewards, v, attractions, near, points) == rewards
    decreases |attractions|
  {
    if attractions != [] {
      var n := |attractions| - 1;
      assert forall a :: a in attractions[..n] ==> a in attractions;
      ScanCatalogNoOp(rewards, v, attractions[..n], near, points);
    }
  }

  /** A pass over a history whose near pairs are all rewarded already appends nothing. */
  lemma {:induction false} RewardPassNoOp(rewards: seq<UserReward>, visits: seq<VisitedLocation>, attractions: seq<Attraction>, near: NearRule, points: PointsRule)
    requires Complete(rewards, visits, attractions, near)
    ensures RewardPass(rewards, visits, attractions, near, points) == rewards
    decreases |visits|
  {
    if visits != [] {
      var n := |visits| - 1;
      assert forall w :: w in visits[..n] ==> w in visits;
      RewardPassNoOp(rewards, visits[..n], attractions, near, points);
      assert visits[n] in visits;
      ScanCatalogNoOp(rewards, visits[n], attractions, near, points);
    }
  }

  /** Idempotence: a second pass with the same history and catalog appends nothing. */
  lemma RewardPassIdempotent(rewards: seq<UserReward>, visits: seq<VisitedLocation>, attractions: seq<Attraction>, near: NearRule, points: PointsRule)
    ensures var once := RewardPass(rewards, visits, attractions, near, points);
      RewardPass(once, visits, attractions, near, points) == once
  {
    var once := RewardPass(rewards, visits, attractions, near, points);
    RewardPassComplete(rewards, visits, attractions, near, points);
    RewardPassNoOp(once, visits, attractions, near, points);
  }

  /** A catalog far from every visited location earns nothing. */
  lemma FarCatalogEarnsNothing(rewards: seq<UserReward>, visits: seq<VisitedLocation>, attractions: seq<Attraction>, near: NearRule, points: PointsRule)
    requires forall v, a :: v in visits && a in attractions ==> !near(v, a)
    ensures RewardPass(rewards, visits, attractions, near, points) == rewards
  {
    RewardPassNoOp(rewards, visits, attractions, near, points);
  }

  /** A visit near some catalog attraction leaves the reward list non-empty. */
  lemma VisitNearAttractionIsRewarded(rewards: seq<UserReward>, visits: seq<VisitedLocation>, attractions: seq<Attraction>, near: NearRule, points: PointsRule, v: VisitedLocation, a: Attraction)
    requires v in visits && a in attractions && near(v, a)
    ensures AlreadyRewarded(RewardPass(rewards, visits, attractions, near, points), a.attractionName)
    ensures RewardPass(rewards, visits, attractions, near, points) != []
  {
    RewardPassComplete(rewards, visits, attractions, near, points);
  }

  /**
   * One attraction, one visit at it: exactly one reward, and a second pass
   * keeps exactly that one.
   */
  lemma SingleVisitSingleAttraction(v: VisitedLocation, a: Attraction, near: NearRule, points: PointsRule)
    requires near(v, a)
    ensures RewardPass([], [v], [a], near, points) == [UserReward(v, a, points(a))]
    ensures RewardPass(RewardPass([], [v], [a], near, points), [v], [a], near, points) == [UserReward(v, a, points(a))]
  {
    assert [v][..0] == [] && [a][..0] == [];
    assert ScanCatalog([], v, [a], near, points) == Step([], v, a, near, points);
    assert !AlreadyRewarded([], a.attractionName);
    RewardPassIdempotent([], [v], [a], near, points);
  }
}
