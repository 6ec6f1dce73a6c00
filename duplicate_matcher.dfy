/**
 * The duplicate matcher of the cleanup run, as pure functions over one fetched list of
 * activities. This is `isIndoorBikeActivity`, `areActivitiesWithinOneHour` and the
 * filter / first-match / accumulate logic of `hideDuplicateIndoorRides`, which src/index.ts
 * and api/index.ts define identically.
 *
 * The run keeps the public `Ride` activities with zero distance (the indoor candidates). For
 * each candidate, in input order, it takes the first `VirtualRide` that starts within one hour
 * of it, inclusive. Every such pairing is reported as a match, and the candidate's id is hidden.
 */
module DuplicateMatcher {
  import opened Wrappers

  const RideType: string := "Ride"
  const VirtualRideType: string := "VirtualRide"

  /** `60 * 60 * 1000`: the matching window, in milliseconds. */
  const OneHourMilliseconds: int := 60 * 60 * 1000

  /**
   * An activity summary as fetched. `activityType` is the API's `type`, `startDate` is the
   * instant of `start_date` in milliseconds, and `isPrivate` is `private`.
   */
  datatype Activity = Activity(id: int, name: string, activityType: string, distance: real, startDate: int, isPrivate: bool)

  /** The reporting projection `{id, name, start_date}` of an activity. */
  datatype ActivityRef = ActivityRef(id: int, name: string, startDate: int)

  datatype ActivityMatch = ActivityMatch(indoorActivity: ActivityRef, virtualRide: ActivityRef)

  datatype CleanupResult = CleanupResult(hidden: seq<int>, matches: seq<ActivityMatch>)

  // ---- the array operations the run uses ----

  /** `Array.prototype.filter`: the elements satisfying `p`, in their order. */
  function Filter<T(!new)>(s: seq<T>, p: T -> bool): (r: seq<T>)
    ensures |r| <= |s|
    ensures forall x :: x in r <==> x in s && p(x)
    decreases |s|
  {
    if s == [] then []
    else
      var init := s[..|s| - 1];
      assert s == init + [s[|s| - 1]];
      Filter(init, p) + (if p(s[|s| - 1]) then [s[|s| - 1]] else [])
  }

  /** The position of the first element satisfying `p`, if there is one. */
  function FirstIndex<T>(s: seq<T>, p: T -> bool): (r: Option<nat>)
    ensures r.Some? ==> r.value < |s| && p(s[r.value]) && forall j :: 0 <= j < r.value ==> !p(s[j])
    ensures r.None? ==> forall j :: 0 <= j < |s| ==> !p(s[j])
  {
    if s == [] then None
    else if p(s[0]) then Some(0)
    else
      match FirstIndex(s[1..], p)
      case None => None
      case Some(i) => Some(i + 1)
  }

  /** `Array.prototype.find`: the first element satisfying `p`, if there is one. */
  function Find<T(!new)>(s: seq<T>, p: T -> bool): (r: Option<T>)
    ensures r.None? <==> forall x :: x in s ==> !p(x)
    ensures r.Some? ==> r.value in s && p(r.value)
    ensures r.Some? ==> exists i :: 0 <= i < |s| && s[i] == r.value && forall j :: 0 <= j < i ==> !p(s[j])
  {
    match FirstIndex(s, p)
    case None => None
    case Some(i) => Some(s[i])
  }

  // ---- classification and the time window ----

  /** `isIndoorBikeActivity`: a `Ride` with zero distance, which is never a virtual ride. */
  predicate IsIndoorBikeActivity(a: Activity): (r: bool)
    ensures r ==> a.activityType != VirtualRideType
  {
    a.activityType == RideType && a.distance == 0.0
  }

  /** The first filter: indoor bike activities that are not private. */
  predicate IsCandidate(a: Activity)
  {
    IsIndoorBikeActivity(a) && !a.isPrivate
  }

  /** The second filter: activities of type `VirtualRide`. */
  predicate IsVirtualRide(a: Activity)
  {
    a.activityType == VirtualRideType
  }

  function Abs(x: int): nat
  {
    if x < 0 then -x else x
  }

  /** `areActivitiesWithinOneHour`: start instants at most one hour apart, either way round. */
  predicate WithinOneHour(first: Activity, second: Activity): (r: bool)
    ensures r <==> second.startDate - OneHourMilliseconds <= first.startDate <= second.startDate + OneHourMilliseconds
  {
    Abs(first.startDate - second.startDate) <= OneHourMilliseconds
  }

  function PublicIndoorBikeActivities(all: seq<Activity>): (r: seq<Activity>)
    ensures forall a :: a in r <==> a in all && a.activityType == RideType && a.distance == 0.0 && !a.isPrivate
  {
    Filter(all, IsCandidate)
  }

  function VirtualRideActivities(all: seq<Activity>): (r: seq<Activity>)
    ensures forall a :: a in r <==> a in all && a.activityType == VirtualRideType
  {
    Filter(all, IsVirtualRide)
  }

  /** The search predicate of `find`: starts within one hour of `indoor`. */
  function NearTo(indoor: Activity): Activity -> bool
  {
    v => WithinOneHour(indoor, v)
  }

  /** `correspondingVirtualRide`: the first of `virtualRides` within one hour of `indoor`. */
  function CorrespondingVirtualRide(virtualRides: seq<Activity>, indoor: Activity): Option<Activity>
  {
    Find(virtualRides, NearTo(indoor))
  }

  function Ref(a: Activity): ActivityRef
  {
    ActivityRef(a.id, a.name, a.startDate)
  }

  function MatchOf(indoor: Activity, virtualRide: Activity): ActivityMatch
  {
    ActivityMatch(Ref(indoor), Ref(virtualRide))
  }

  /**
   * The accumulating loop over the candidates, in order. A candidate with a corresponding
   * virtual ride adds one match and its own id; one without adds nothing. The two lists stay
   * aligned index by index.
   */
  function Pairs(candidates: seq<Activity>, virtualRides: seq<Activity>): (r: CleanupResult)
    ensures |r.hidden| == |r.matches| <= |candidates|
    ensures forall i :: 0 <= i < |r.hidden| ==> r.hidden[i] == r.matches[i].indoorActivity.id
    decreases |candidates|
  {
    if candidates == [] then CleanupResult([], [])
    else
      var prev := Pairs(candidates[..|candidates| - 1], virtualRides);
      var indoor := candidates[|candidates| - 1];
      match CorrespondingVirtualRide(virtualRides, indoor)
      case None => prev
      case Some(v) => CleanupResult(prev.hidden + [indoor.id], prev.matches + [MatchOf(indoor, v)])
  }

  /** What one run computes from the fetched list, before any update is issued. */
  function Cleanup(all: seq<Activity>): (r: CleanupResult)
    ensures |r.hidden| == |r.matches| <= |PublicIndoorBikeActivities(all)|
    ensures forall i :: 0 <= i < |r.hidden| ==> r.hidden[i] == r.matches[i].indoorActivity.id
  {
    Pairs(PublicIndoorBikeActivities(all), VirtualRideActivities(all))
  }
}
