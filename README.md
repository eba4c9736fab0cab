# TourGuide reward attribution and location tracking, in Dafny

This project models the core of the TourGuide service: how a user's location is
tracked and how reward points are attributed when a visited location lies near
an attraction of the catalog.

- **Reward attribution pass** (`RewardsService.calculateRewards`). A nested loop runs over
  the user's visited locations and the attraction catalog. It appends a reward for an
  attraction when no reward of the user names that attraction yet and the pair is near.
  The "already rewarded" check rescans the live reward list, so a reward appended earlier
  in the same pass blocks a duplicate later in it.
- **Proximity**. `nearAttraction` holds when the distance is not greater than the
  proximity buffer (default 10 miles, settable and resettable). `isWithinAttractionProximity`
  holds when the distance is not greater than the 200-mile display range. Both are
  inclusive at the limit.
- **Tracking**. `trackUserLocation` fetches a location, appends it to the history and runs
  one attribution pass. `getUserLocation` answers the last known location, or tracks when
  the history is empty.
- **Nearby attractions**. `getNearByAttractions` sorts the catalog stably by distance, keeps
  the first five and maps each one to an `AttractionDTO`.
- **User directory and trip deals**. `addUser` inserts only under an absent name.
  `getUser` and `getAllUsers` read the directory. `getTripDeals` prices trips with the
  user's summed reward points.
- **`AttractionDTO`**. A five-field object with setters, field-wise `equals` and a
  `hashCode` over the same fields.

Files and modules:

- `gps.dfy` (`Gps`): locations, visited locations, attractions, the distance type.
- `users.dfy` (`Users`): the `User` object, with its visit history, reward list and trip
  deals, and the `UserReward` value.
- `java_int.dfy` (`JavaInt`): Java `int` wrap-around.
- `attribution.dfy` (`Attribution`): the attribution pass as a function of the reward list,
  the history and the catalog, with its lemmas.
- `rewards.dfy` (`Rewards`): the `RewardsService` object; `CalculateRewards` is the nested
  loop, proved equal to the specification pass.
- `stable_sort.dfy` (`StableSort`): a stable sort by a real key, the "first n" cut, and their lemmas.
- `attraction_dto.dfy` (`Pojo`): the `AttractionDTO` object.
- `tour_guide_service.dfy` (`TourGuide`): the `TourGuideService` object.

External collaborators are given to the model as values:

- the distance function (`getDistance`), the attraction catalog and the reward-points
  provider are constructor arguments of the services;
- the location provider's fetch is a function argument of `TrackUserLocation` and
  `GetUserLocation`;
- the trip pricer is a constructor argument of `TourGuideService`.

Behaviour of the code that the model treats specially:

- `calculateRewards` fetches the catalog from the location provider on every call
  (RewardsService.java:73), and so does `getNearByAttractions` (TourGuideService.java:167).
  Both services are built on the same provider, so the model gives them one fixed catalog:
  the `TourGuideService` constructor requires its catalog to be the reward service's.
- The distance formula passes its cosine sum to `acos` unclamped (RewardsService.java:132-133);
  the formula is not modelled (see below).
- `getNearByAttractions` returns min(5, |catalog|) entries, fewer than five on a small
  catalog (TourGuideService.java:169).
- `calculateRewards` reads and appends to the user's reward list without any lock
  (RewardsService.java:77-82). The model is sequential, so the no-duplicate invariant holds
  for one call at a time.
- `trackUserLocation` returns the fetch future, not the future composed with the reward
  pass (TourGuideService.java:144-152). In the model the pass has finished when the call
  returns; the source gives its callers no such guarantee.
- An exception from the reward-points provider inside the loop ends the rest of the pass
  (RewardsService.java:81). The model's provider is a total function, so provider failures
  are not modelled.
- The user directory is keyed by each user's own name (TourGuideService.java:106-107, :206).
  The model states this as the invariant `Valid()` of `TourGuideService`.

## Model

| member | source | states |
|---|---|---|
| `Gps.Attraction.Loc` | TourGuide/src/main/java/com/openclassrooms/tourguide/service/TourGuideService.java:172 | An attraction used as a Location carries the attraction's own latitude and longitude. |
| `Users.User.AddToVisitedLocations` | TourGuide/src/main/java/com/openclassrooms/tourguide/service/TourGuideService.java:148 | The history becomes the old history with the new location appended at the end. |
| `Users.User.AddUserReward` | TourGuide/src/main/java/com/openclassrooms/tourguide/service/RewardsService.java:82 | The reward list becomes the old list with the new reward appended at the end. |
| `Users.User.SetTripDeals` | TourGuide/src/main/java/com/openclassrooms/tourguide/service/TourGuideService.java:116 | The user's trip deals become the given offers. |
| `Users.User.LastVisitedLocation` | TourGuide/src/main/java/com/openclassrooms/tourguide/service/TourGuideService.java:93 | On a non-empty history, the result is an entry of the history and it is the last one. |
| `JavaInt.Wrap` | TourGuide/src/main/java/com/openclassrooms/tourguide/service/TourGuideService.java:112 | The result is a Java int congruent to the input modulo 2^32, and it equals the input when the input fits. |
| `JavaInt.WrapAdd` | TourGuide/src/main/java/com/openclassrooms/tourguide/service/TourGuideService.java:112 | Wrapping a partial sum before the next addition gives the same int as wrapping once at the end. |
| `Attribution.ScanCatalogAppends` | TourGuide/src/main/java/com/openclassrooms/tourguide/service/RewardsService.java:76-84 | The inner loop for one visit only appends; each appended reward is for that visit, a catalog attraction near it, and the provider's points. |
| `Attribution.RewardPassAppends` | TourGuide/src/main/java/com/openclassrooms/tourguide/service/RewardsService.java:75-85 | The pass keeps the old rewards as a prefix, unchanged and in place; every reward it adds has a visit of the history, a catalog attraction, nearness for that pair, and the provider's points for that attraction and user. |
| `Attribution.StepKeepsDistinct` | TourGuide/src/main/java/com/openclassrooms/tourguide/service/RewardsService.java:77-83 | One iteration keeps attraction names pairwise distinct, because it appends only when no reward has that name. |
| `Attribution.ScanCatalogKeepsDistinct` | TourGuide/src/main/java/com/openclassrooms/tourguide/service/RewardsService.java:76-84 | The inner loop keeps attraction names pairwise distinct. |
| `Attribution.RewardPassKeepsDistinct` | TourGuide/src/main/java/com/openclassrooms/tourguide/service/RewardsService.java:77-82 | If the rewards have pairwise-distinct attraction names before the pass, they still do after it, since the rescan sees rewards appended earlier in the same pass. |
| `Attribution.ScanCatalogComplete` | TourGuide/src/main/java/com/openclassrooms/tourguide/service/RewardsService.java:76-84 | After the inner loop for a visit, every catalog attraction near that visit has a reward with its name. |
| `Attribution.RewardPassComplete` | TourGuide/src/main/java/com/openclassrooms/tourguide/service/RewardsService.java:75-85 | After the pass, every near (visit of the history, catalog attraction) pair has a reward with that attraction's name. |
| `Attribution.RewardPassNoOp` | TourGuide/src/main/java/com/openclassrooms/tourguide/service/RewardsService.java:77-80 | If every near pair is rewarded already, the pass returns the reward list unchanged. |
| `Attribution.RewardPassIdempotent` | TourGuide/src/main/java/com/openclassrooms/tourguide/service/RewardsService.java:75-85 | A second pass with the same history and catalog appends nothing. |
| `Attribution.FarCatalogEarnsNothing` | TourGuide/src/main/java/com/openclassrooms/tourguide/service/RewardsService.java:80 | When no visit is near any catalog attraction, the pass adds no reward. |
| `Attribution.VisitNearAttractionIsRewarded` | TourGuide/src/main/java/com/openclassrooms/tourguide/service/RewardsService.java:80-82 | A visit of the history near a catalog attraction leaves a reward with that attraction's name, so the list is non-empty. |
| `Attribution.SingleVisitSingleAttraction` | TourGuide/src/main/java/com/openclassrooms/tourguide/service/RewardsService.java:75-85 | One visit near the only attraction yields exactly one reward, with the provider's points, and a second pass still leaves exactly that one. |
| `Rewards.RewardsService.constructor` | TourGuide/src/main/java/com/openclassrooms/tourguide/service/RewardsService.java:23-37 | A new service has buffer 10 (the default), display range 200, and the given catalog, distance and points provider. |
| `Rewards.RewardsService.SetProximityBuffer` | TourGuide/src/main/java/com/openclassrooms/tourguide/service/RewardsService.java:39-41 | The buffer becomes the argument; the display range is unchanged. |
| `Rewards.RewardsService.SetDefaultProximityBuffer` | TourGuide/src/main/java/com/openclassrooms/tourguide/service/RewardsService.java:43-45 | The buffer becomes 10 again; the display range is unchanged. |
| `Rewards.RewardsService.IsWithinAttractionProximity` | TourGuide/src/main/java/com/openclassrooms/tourguide/service/RewardsService.java:102-104 | True exactly when the distance from the attraction to the location is at most 200 miles, the limit included; the range is a constant. |
| `Rewards.RewardsService.NearAttraction` | TourGuide/src/main/java/com/openclassrooms/tourguide/service/RewardsService.java:117-119 | True exactly when the distance from the attraction to the visited location is at most the proximity buffer, the limit included. |
| `Rewards.RewardsService.Near` | TourGuide/src/main/java/com/openclassrooms/tourguide/service/RewardsService.java:117-119 | The proximity rule as a value agrees with `NearAttraction` on every pair under the current buffer. |
| `Rewards.RewardsService.PointsFor` | TourGuide/src/main/java/com/openclassrooms/tourguide/service/RewardsService.java:122-124 | A reward's points are the provider's value for the attraction's id and the user's id. |
| `Rewards.RewardsService.CalculateRewards` | TourGuide/src/main/java/com/openclassrooms/tourguide/service/RewardsService.java:69-87 | The loop leaves the history unchanged and the reward list equal to the specification pass. Old rewards keep their places; new ones are earned; distinct names stay distinct; every near pair ends up rewarded. |
| `Rewards.VisitAtAttractionEarnsReward` | TourGuide/src/test/java/com/openclassrooms/tourguide/TestPerformance.java:102-116 | A history with a visit on a catalog attraction's coordinates ends the pass with a non-empty reward list, provided that point's distance to itself is within the buffer. |
| `StableSort.Insert` | TourGuide/src/main/java/com/openclassrooms/tourguide/service/TourGuideService.java:168 | Inserting into a key-sorted list keeps it sorted and adds exactly the one element. |
| `StableSort.SortBy` | TourGuide/src/main/java/com/openclassrooms/tourguide/service/TourGuideService.java:167-168 | The sorted catalog is a permutation of the catalog in non-decreasing key order. |
| `StableSort.SortByStable` | TourGuide/src/main/java/com/openclassrooms/tourguide/service/TourGuideService.java:168 | For every key value, the elements with that key keep their catalog order (the sort is stable). |
| `StableSort.SmallestShape` | TourGuide/src/main/java/com/openclassrooms/tourguide/service/TourGuideService.java:167-169 | The cut has the smaller of n and the catalog size elements, drawn from the catalog, in non-decreasing key order. |
| `StableSort.SmallestAreNearest` | TourGuide/src/main/java/com/openclassrooms/tourguide/service/TourGuideService.java:167-169 | No catalog element left out of the cut has a smaller key than one kept. |
| `StableSort.SmallestKeepsInputOrder` | TourGuide/src/main/java/com/openclassrooms/tourguide/service/TourGuideService.java:168-169 | Among equal keys, the kept elements are the earliest of the catalog, in catalog order. |
| `Pojo.CombineHashes` | TourGuide/src/main/java/com/openclassrooms/tourguide/pojo/AttractionDTO.java:72 | `Objects.hash` folds `31 * h + e` from 1 in int arithmetic, so the result is a Java int. |
| `Pojo.HashOf` | TourGuide/src/main/java/com/openclassrooms/tourguide/pojo/AttractionDTO.java:72 | The hash of five field values is a Java int. |
| `Pojo.AttractionDTO.constructor` | TourGuide/src/main/java/com/openclassrooms/tourguide/pojo/AttractionDTO.java:14-20 | The five arguments are stored in the matching fields, which the getters return. |
| `Pojo.AttractionDTO.SetAttractionLocation` | TourGuide/src/main/java/com/openclassrooms/tourguide/pojo/AttractionDTO.java:26-28 | Only the attraction location changes; the other four fields are unchanged. |
| `Pojo.AttractionDTO.SetDistance` | TourGuide/src/main/java/com/openclassrooms/tourguide/pojo/AttractionDTO.java:34-36 | Only the distance changes; the other four fields are unchanged. |
| `Pojo.AttractionDTO.SetName` | TourGuide/src/main/java/com/openclassrooms/tourguide/pojo/AttractionDTO.java:42-44 | Only the name changes; the other four fields are unchanged. |
| `Pojo.AttractionDTO.SetRewardPoint` | TourGuide/src/main/java/com/openclassrooms/tourguide/pojo/AttractionDTO.java:50-52 | Only the reward points change; the other four fields are unchanged. |
| `Pojo.AttractionDTO.SetUserLocation` | TourGuide/src/main/java/com/openclassrooms/tourguide/pojo/AttractionDTO.java:58-60 | Only the user location changes; the other four fields are unchanged. |
| `Pojo.AttractionDTO.Equals` | TourGuide/src/main/java/com/openclassrooms/tourguide/pojo/AttractionDTO.java:63-68 | True for the object itself; false for null or an object of another class; for another DTO, true exactly when all five fields are equal. |
| `Pojo.AttractionDTO.HashCode` | TourGuide/src/main/java/com/openclassrooms/tourguide/pojo/AttractionDTO.java:71-73 | The hash is a Java int and depends on the five field values only. |
| `Pojo.EqualsIsEquivalence` | TourGuide/src/main/java/com/openclassrooms/tourguide/pojo/AttractionDTO.java:63-68 | `equals` between DTOs is reflexive, symmetric and transitive. |
| `Pojo.EqualsAgreesWithHashCode` | TourGuide/src/main/java/com/openclassrooms/tourguide/pojo/AttractionDTO.java:63-73 | DTOs that are `equals` have equal `hashCode`. |
| `TourGuide.CumulativeRewardPoints` | TourGuide/src/main/java/com/openclassrooms/tourguide/service/TourGuideService.java:112 | The stream sum of the reward points is a Java int. |
| `TourGuide.CumulativeIsWrappedTotal` | TourGuide/src/main/java/com/openclassrooms/tourguide/service/TourGuideService.java:112 | The stream sum is the true total wrapped once to 32 bits, so it equals the true total whenever that fits in an int. |
| `TourGuide.Summary` | TourGuide/src/main/java/com/openclassrooms/tourguide/service/TourGuideService.java:170-176 | A summary carries the attraction's name and coordinates, the visit's coordinates, the distance between them, and the provider's points for the attraction's id and the visit's user id. |
| `TourGuide.TourGuideService.constructor` | TourGuide/src/main/java/com/openclassrooms/tourguide/service/TourGuideService.java:45-60 | A new service holds the given collaborators, shares the reward service's catalog, and starts with the given directory, in which every user is stored under its own name. |
| `TourGuide.TourGuideService.TrackUserLocation` | TourGuide/src/main/java/com/openclassrooms/tourguide/service/TourGuideService.java:143-153 | The returned location is the fetched one. It is appended to the end of the history, earlier entries unchanged. The rewards then equal one pass over the extended history, with the distinctness and completeness guarantees. |
| `TourGuide.TourGuideService.GetUserLocation` | TourGuide/src/main/java/com/openclassrooms/tourguide/service/TourGuideService.java:89-94 | With a history: returns its last entry and changes neither history nor rewards. Without one: the history becomes exactly the fetched location, which is returned, and one pass runs. |
| `TourGuide.TourGuideService.GetUser` | TourGuide/src/main/java/com/openclassrooms/tourguide/service/TourGuideService.java:97-99 | Null exactly when the name is not registered; otherwise the registered user, whose name is the one asked for. |
| `TourGuide.TourGuideService.GetAllUsers` | TourGuide/src/main/java/com/openclassrooms/tourguide/service/TourGuideService.java:101-103 | Lists every registered name exactly once, each with the user stored under it, so the list holds exactly the directory's users; since users are stored under their own names, no user is listed twice. |
| `TourGuide.ListingCoversValues` | TourGuide/src/main/java/com/openclassrooms/tourguide/service/TourGuideService.java:101-103 | A listing that pairs every registered name with its stored user contains exactly the directory's users. |
| `TourGuide.ListingIsDuplicateFree` | TourGuide/src/main/java/com/openclassrooms/tourguide/service/TourGuideService.java:105-107 | When every user is stored under its own name, a listing of distinct names lists distinct users. |
| `TourGuide.TourGuideService.AddUser` | TourGuide/src/main/java/com/openclassrooms/tourguide/service/TourGuideService.java:105-109 | Inserts only when the name is absent. An existing entry is never overwritten, other names are unchanged, afterwards the name is registered, and every user stays stored under its own name. |
| `TourGuide.TourGuideService.GetTripDeals` | TourGuide/src/main/java/com/openclassrooms/tourguide/service/TourGuideService.java:111-118 | The pricer gets the API key, the user's id and preferences, and the int sum of the user's reward points. Its offers are returned and stored as the user's trip deals. |
| `TourGuide.TourGuideService.ToSummaries` | TourGuide/src/main/java/com/openclassrooms/tourguide/service/TourGuideService.java:170-177 | One fresh DTO per attraction, in order, each holding that attraction's summary. |
| `TourGuide.TourGuideService.GetNearByAttractions` | TourGuide/src/main/java/com/openclassrooms/tourguide/service/TourGuideService.java:166-178 | Returns the smaller of 5 and the catalog size fresh DTOs built from catalog attractions, in non-decreasing distance. No attraction left out is nearer than one returned, and ties keep catalog order. |

## Left out

- The great-circle formula of `getDistance` (RewardsService.java:126-138) is floating-point trigonometry. The distance is a parameter. No fact about it is assumed, such as zero self-distance or symmetry, except where a lemma states one as a hypothesis.
- Java doubles are modelled as reals, so there is no NaN. A NaN distance would satisfy `!(d > limit)` in the source and count as near; the model does not capture this.
- `equals` compares the `Double` distance field with `Double.equals`. The model uses value equality, so NaN and negative zero are not modelled.
- `gpsUtil.Location` equality and hash codes come from a library. Location equality is value equality, and the String, Location and Double hash codes are parameters (`ElementHashes`).
- `Pojo.AttractionDTO.constructor` and the setters cannot store null: the source's setters accept null for the boxed and reference fields; the model's fields are not nullable.
- Executors, `CompletableFuture` chaining and `allOf` joins are modelled as sequential composition. Thread pools, interleavings and the missing per-user locking are not modelled.
- `getExecutor` returns a thread pool, which is part of the concurrency left out above.
- The location provider, the reward-points provider and the trip pricer are external. They are function-valued arguments, and their failures are not modelled.
- The random generation of test users and histories (TourGuideService.java:198-233) is left out. The service's constructor takes the initial user directory as an argument.
- The tracker, the shutdown hook, `Locale`, logging and the debug print of `calculateRewards` are left out.
- `AttractionDTO.toString` formatting is left out.
- The performance timing assertions of the tests are left out.
- User.java is not part of this model. `addToVisitedLocations`, `addUserReward`, `setTripDeals` and `getLastVisitedLocation` are modelled as a plain append, a plain append, an assignment and a read of the last entry.
- `getUserRewards` (TourGuideService.java:62-64) only returns the user's list; the model reads `user.userRewards` directly.
- The AttractionDTO getters are the model's field reads, collected by `View()`.
- Reward points are unbounded integers. Java int wrap-around is modelled only where the source adds or combines them: the trip-deal sum and the hash code.
