/**
 * What the duplicate matcher computes, stated over the fetched list itself. `Reference` reads
 * straight off the input: the ids of the public indoor activities that have a virtual ride
 * within one hour, in input order, each paired with the first such virtual ride in input order.
 * `CleanupIsReference` proves that the accumulating loop computes exactly this. The remaining
 * lemmas are consequences and worked examples.
 */
module DuplicateMatcherProperties {
  import opened Wrappers
  import opened DuplicateMatcher

  // ---- the reference definition ----

  predicate IsNearbyVirtualRide(indoor: Activity, v: Activity)
  {
    IsVirtualRide(v) && WithinOneHour(indoor, v)
  }

  function NearbyVirtualRideOf(indoor: Activity): Activity -> bool
  {
    v => IsNearbyVirtualRide(indoor, v)
  }

  /** The first activity of the whole list that is a virtual ride within one hour of `indoor`. */
  function FirstNearbyVirtualRide(all: seq<Activity>, indoor: Activity): Option<Activity>
  {
    Find(all, NearbyVirtualRideOf(indoor))
  }

  function HasNearbyVirtualRideIn(all: seq<Activity>): Activity -> bool
  {
    a => FirstNearbyVirtualRide(all, a).Some?
  }

  function IsDuplicateIn(all: seq<Activity>): Activity -> bool
  {
    a => IsCandidate(a) && FirstNearbyVirtualRide(all, a).Some?
  }

  /** The public indoor activities that have a virtual ride within one hour, in input order. */
  function Duplicates(all: seq<Activity>): seq<Activity>
  {
    Filter(all, IsDuplicateIn(all))
  }

  function Ids(ms: seq<Activity>): seq<int>
  {
    seq(|ms|, i requires 0 <= i < |ms| => ms[i].id)
  }

  function Reports(all: seq<Activity>, ms: seq<Activity>): seq<ActivityMatch>
    requires forall m :: m in ms ==> FirstNearbyVirtualRide(all, m).Some?
  {
    seq(|ms|, i requires 0 <= i < |ms| => MatchOf(ms[i], FirstNearbyVirtualRide(all, ms[i]).value))
  }

  /** The result that reports and hides exactly the activities `ms`. */
  function Report(all: seq<Activity>, ms: seq<Activity>): CleanupResult
    requires forall m :: m in ms ==> FirstNearbyVirtualRide(all, m).Some?
  {
    CleanupResult(Ids(ms), Reports(all, ms))
  }

  function Reference(all: seq<Activity>): CleanupResult
  {
    Report(all, Duplicates(all))
  }

  ghost predicate DistinctIds(all: seq<Activity>)
  {
    forall i, j :: 0 <= i < j < |all| ==> all[i].id != all[j].id
  }

  // ---- facts about the array operations ----

  lemma FirstIndexIsLeast<T>(s: seq<T>, p: T -> bool, i: nat)
    requires i < |s| && p(s[i])
    requires forall j :: 0 <= j < i ==> !p(s[j])
    ensures FirstIndex(s, p) == Some(i)
  {
  }

  /** `find` on a concatenation looks in the second part only when the first has no match. */
  lemma FindAppend<T(!new)>(a: seq<T>, b: seq<T>, p: T -> bool)
    ensures Find(a + b, p) == if Find(a, p).Some? then Find(a, p) else Find(b, p)
  {
    match FirstIndex(a, p)
    case Some(i) =>
      FirstIndexIsLeast(a + b, p, i);
    case None =>
      match FirstIndex(b, p)
      case Some(j) =>
        assert (a + b)[|a| + j] == b[j];
        forall k | 0 <= k < |a| + j
          ensures !p((a + b)[k])
        {
          if k >= |a| {
            assert (a + b)[k] == b[k - |a|];
          }
        }
        FirstIndexIsLeast(a + b, p, |a| + j);
      case None =>
        assert forall x :: x in a + b ==> x in a || x in b;
  }

  lemma FilterSnoc<T(!new)>(s: seq<T>, x: T, p: T -> bool)
    ensures Filter(s + [x], p) == Filter(s, p) + (if p(x) then [x] else [])
  {
    assert (s + [x])[..|s|] == s;
  }

  lemma FilterOfTwo<T(!new)>(a: T, b: T, p: T -> bool)
    ensures Filter([a, b], p) == (if p(a) then [a] else []) + (if p(b) then [b] else [])
  {
    FilterSnoc([], a, p);
    assert [] + [a] == [a];
    FilterSnoc([a], b, p);
    assert [a] + [b] == [a, b];
  }

  lemma FilterOfThree<T(!new)>(a: T, b: T, c: T, p: T -> bool)
    ensures Filter([a, b, c], p) == Filter([a, b], p) + (if p(c) then [c] else [])
  {
    FilterSnoc([a, b], c, p);
    assert [a, b] + [c] == [a, b, c];
  }

  /** Searching the filtered list is searching the whole list for both conditions at once. */
  lemma {:induction false} FindAfterFilter<T(!new)>(s: seq<T>, p: T -> bool, q: T -> bool, pq: T -> bool)
    requires forall x :: pq(x) == (p(x) && q(x))
    ensures Find(Filter(s, p), q) == Find(s, pq)
    decreases |s|
  {
    if s != [] {
      var init, x := s[..|s| - 1], s[|s| - 1];
      assert s == init + [x];
      FindAfterFilter(init, p, q, pq);
      FilterSnoc(init, x, p);
      FindAppend(Filter(init, p), if p(x) then [x] else [], q);
      FindAppend(init, [x], pq);
    }
  }

  /** Filtering twice is filtering once for both conditions. */
  lemma {:induction false} FilterAfterFilter<T(!new)>(s: seq<T>, p: T -> bool, q: T -> bool, pq: T -> bool)
    requires forall x :: pq(x) == (p(x) && q(x))
    ensures Filter(Filter(s, p), q) == Filter(s, pq)
    decreases |s|
  {
    if s != [] {
      var init, x := s[..|s| - 1], s[|s| - 1];
      assert s == init + [x];
      FilterAfterFilter(init, p, q, pq);
      FilterSnoc(init, x, p);
      FilterSnoc(init, x, pq);
      assert pq(x) == (p(x) && q(x));
      if p(x) {
        assert Filter(s, p) == Filter(init, p) + [x];
        FilterSnoc(Filter(init, p), x, q);
      } else {
        assert Filter(s, p) == Filter(init, p);
      }
    }
  }

  // ---- the loop computes the reference ----

  /** Searching the virtual-ride sublist finds the first nearby virtual ride of the whole list. */
  lemma CorrespondingIsFirstNearby(all: seq<Activity>, indoor: Activity)
    ensures CorrespondingVirtualRide(VirtualRideActivities(all), indoor) == FirstNearbyVirtualRide(all, indoor)
  {
    FindAfterFilter(all, IsVirtualRide, NearTo(indoor), NearbyVirtualRideOf(indoor));
  }

  lemma ReportSnoc(all: seq<Activity>, ms: seq<Activity>, x: Activity)
    requires forall m :: m in ms ==> FirstNearbyVirtualRide(all, m).Some?
    requires FirstNearbyVirtualRide(all, x).Some?
    ensures Report(all, ms + [x]) == CleanupResult(Report(all, ms).hidden + [x.id],
      Report(all, ms).matches + [MatchOf(x, FirstNearbyVirtualRide(all, x).value)])
  {
    assert Ids(ms + [x]) == Ids(ms) + [x.id];
    assert Reports(all, ms + [x]) == Reports(all, ms) + [MatchOf(x, FirstNearbyVirtualRide(all, x).value)];
  }

  /** The accumulating loop is a filter followed by a projection. */
  lemma {:induction false} PairsIsFilterMap(candidates: seq<Activity>, all: seq<Activity>)
    ensures Pairs(candidates, VirtualRideActivities(all)) == Report(all, Filter(candidates, HasNearbyVirtualRideIn(all)))
    decreases |candidates|
  {
    if candidates != [] {
      var init, x := candidates[..|candidates| - 1], candidates[|candidates| - 1];
      assert candidates == init + [x];
      PairsIsFilterMap(init, all);
      var has := HasNearbyVirtualRideIn(all);
      FilterSnoc(init, x, has);
      CorrespondingIsFirstNearby(all, x);
      if has(x) {
        ReportSnoc(all, Filter(init, has), x);
      }
    }
  }

  /**
   * The run's result is the reference: `hidden` lists, in input order, the ids of the public
   * indoor activities that have a virtual ride within one hour, and `matches` pairs each of
   * them with the first such virtual ride in input order.
   */
  lemma CleanupIsReference(all: seq<Activity>)
    ensures Cleanup(all) == Reference(all)
  {
    PairsIsFilterMap(PublicIndoorBikeActivities(all), all);
    FilterAfterFilter(all, IsCandidate, HasNearbyVirtualRideIn(all), IsDuplicateIn(all));
  }

  // ---- consequences ----

  /** Every hidden id belongs to a public indoor activity of the fetched list. */
  lemma HiddenAreCandidates(all: seq<Activity>)
    ensures forall id :: id in Cleanup(all).hidden ==>
      exists a :: a in all && a.id == id && IsIndoorBikeActivity(a) && !a.isPrivate
  {
    CleanupIsReference(all);
    var d := Duplicates(all);
    forall id | id in Cleanup(all).hidden
      ensures exists a :: a in all && a.id == id && IsIndoorBikeActivity(a) && !a.isPrivate
    {
      var i :| 0 <= i < |d| && Ids(d)[i] == id;
      assert d[i] in d;
    }
  }

  /** With distinct ids, only an activity with a virtual ride within one hour is hidden. */
  lemma HiddenHasNearbyVirtualRide(all: seq<Activity>, a: Activity)
    requires DistinctIds(all) && a in all && a.id in Cleanup(all).hidden
    ensures IsCandidate(a) && exists v :: v in all && IsVirtualRide(v) && WithinOneHour(a, v)
  {
    CleanupIsReference(all);
    var d := Duplicates(all);
    var i :| 0 <= i < |d| && Ids(d)[i] == a.id;
    assert d[i] in d;
    var k :| 0 <= k < |all| && all[k] == a;
    var m :| 0 <= m < |all| && all[m] == d[i];
    assert k == m;
    var v := FirstNearbyVirtualRide(all, a).value;
    assert v in all && IsVirtualRide(v) && WithinOneHour(a, v);
  }

  /** Every public indoor activity with a virtual ride within one hour is hidden. */
  lemma NearbyVirtualRideHides(all: seq<Activity>, a: Activity, v: Activity)
    requires a in all && IsCandidate(a) && v in all && IsVirtualRide(v) && WithinOneHour(a, v)
    ensures a.id in Cleanup(all).hidden
  {
    var d := Duplicates(all);
    assert FirstNearbyVirtualRide(all, a).Some? by {
      assert NearbyVirtualRideOf(a)(v);
    }
    assert a in d;
    var i :| 0 <= i < |d| && d[i] == a;
    assert Ids(d)[i] == a.id;
    CleanupIsReference(all);
  }

  /**
   * With server-assigned (distinct) ids: an activity of the list is hidden exactly when it is a
   * public indoor activity with some virtual ride of the list within one hour. A candidate with
   * no such virtual ride is not hidden, and by alignment not reported either.
   */
  lemma HiddenExactlyDuplicates(all: seq<Activity>, a: Activity)
    requires DistinctIds(all) && a in all
    ensures a.id in Cleanup(all).hidden
            <==> IsCandidate(a) && exists v :: v in all && IsVirtualRide(v) && WithinOneHour(a, v)
  {
    if a.id in Cleanup(all).hidden {
      HiddenHasNearbyVirtualRide(all, a);
    }
    if IsCandidate(a) && exists v :: v in all && IsVirtualRide(v) && WithinOneHour(a, v) {
      var v :| v in all && IsVirtualRide(v) && WithinOneHour(a, v);
      NearbyVirtualRideHides(all, a, v);
    }
  }

  /**
   * Each reported pair joins a public indoor activity `d` with an activity `all[k]` of type
   * `VirtualRide` that starts within one hour of it, and every virtual ride before `all[k]` in
   * input order is more than an hour away from `d`.
   */
  lemma ReportedRideIsFirstWithinHour(all: seq<Activity>, i: nat)
    requires i < |Cleanup(all).matches|
    ensures exists d, k ::
      && d in all && IsCandidate(d) && 0 <= k < |all|
      && Cleanup(all).matches[i] == MatchOf(d, all[k])
      && IsVirtualRide(all[k]) && WithinOneHour(d, all[k])
      && (forall j :: 0 <= j < k ==> !(IsVirtualRide(all[j]) && WithinOneHour(d, all[j])))
  {
    CleanupIsReference(all);
    var ds := Duplicates(all);
    var d := ds[i];
    assert d in ds;
    var k := FirstIndex(all, NearbyVirtualRideOf(d)).value;
    assert Cleanup(all).matches[i] == MatchOf(d, all[k]);
    assert forall j :: 0 <= j < k ==> !NearbyVirtualRideOf(d)(all[j]);
  }

  /** Every candidate that has a corresponding virtual ride has its id hidden. */
  lemma {:induction false} PairsHidesEveryMatched(candidates: seq<Activity>, virtualRides: seq<Activity>, x: Activity)
    requires x in candidates && CorrespondingVirtualRide(virtualRides, x).Some?
    ensures x.id in Pairs(candidates, virtualRides).hidden
    decreases |candidates|
  {
    var init, last := candidates[..|candidates| - 1], candidates[|candidates| - 1];
    assert candidates == init + [last];
    if x != last {
      PairsHidesEveryMatched(init, virtualRides, x);
    }
  }

  /** Handling one more candidate extends the two lists by its pairing, if it has one. */
  lemma PairsSnoc(candidates: seq<Activity>, x: Activity, virtualRides: seq<Activity>)
    ensures Pairs(candidates + [x], virtualRides)
            == match CorrespondingVirtualRide(virtualRides, x)
               case None => Pairs(candidates, virtualRides)
               case Some(v) => CleanupResult(Pairs(candidates, virtualRides).hidden + [x.id],
                                             Pairs(candidates, virtualRides).matches + [MatchOf(x, v)])
  {
    assert (candidates + [x])[..|candidates|] == candidates;
  }

  /** Stopping the loop early yields a prefix of both lists. */
  lemma {:induction false} PairsPrefix(candidates: seq<Activity>, virtualRides: seq<Activity>, n: nat)
    requires n <= |candidates|
    ensures Pairs(candidates[..n], virtualRides).hidden <= Pairs(candidates, virtualRides).hidden
    ensures Pairs(candidates[..n], virtualRides).matches <= Pairs(candidates, virtualRides).matches
    decreases |candidates|
  {
    if n < |candidates| {
      var init := candidates[..|candidates| - 1];
      assert init[..n] == candidates[..n];
      PairsPrefix(init, virtualRides, n);
    } else {
      assert candidates[..n] == candidates;
    }
  }

  /** The window is symmetric and closed: a start exactly one hour away still matches. */
  lemma WithinOneHourWindow(a: Activity, b: Activity)
    ensures WithinOneHour(a, b) == WithinOneHour(b, a)
    ensures WithinOneHour(a, b) <==> -3_600_000 <= a.startDate - b.startDate <= 3_600_000
  {
  }

  // ---- worked examples ----

  function Indoor(id: int, start: int, isPrivate: bool): Activity
  {
    Activity(id, "Indoor ride", RideType, 0.0, start, isPrivate)
  }

  function Virtual(id: int, start: int): Activity
  {
    Activity(id, "Virtual ride", VirtualRideType, 5000.0, start, false)
  }

  /** A public indoor ride and a virtual ride ten minutes later: the indoor ride is hidden. */
  lemma PublicPairIsHidden(t: int)
    ensures Cleanup([Indoor(1, t, false), Virtual(2, t + 600_000)])
            == CleanupResult([1], [MatchOf(Indoor(1, t, false), Virtual(2, t + 600_000))])
  {
    var indoor, ride := Indoor(1, t, false), Virtual(2, t + 600_000);
    FilterOfTwo(indoor, ride, IsCandidate);
    FilterOfTwo(indoor, ride, IsVirtualRide);
    assert Pairs([indoor], [ride]) == CleanupResult([1], [MatchOf(indoor, ride)]) by {
      assert [indoor][..0] == [];
      assert FirstIndex([ride], NearTo(indoor)) == Some(0);
    }
  }

  /** The same pair with the indoor ride already private: nothing is hidden or reported. */
  lemma PrivatePairIsLeftAlone(t: int)
    ensures Cleanup([Indoor(1, t, true), Virtual(2, t + 600_000)]) == CleanupResult([], [])
  {
    FilterOfTwo(Indoor(1, t, true), Virtual(2, t + 600_000), IsCandidate);
  }

  /** An indoor ride with no virtual ride at all: nothing is hidden or reported. */
  lemma LoneIndoorRideIsLeftAlone(t: int)
    ensures Cleanup([Indoor(1, t, false)]) == CleanupResult([], [])
  {
    var indoor := Indoor(1, t, false);
    FilterSnoc([], indoor, IsVirtualRide);
    FilterSnoc([], indoor, IsCandidate);
    assert [] + [indoor] == [indoor];
    assert Pairs([indoor], []) == CleanupResult([], []) by {
      assert [indoor][..0] == [];
    }
  }

  lemma SharedRideExamplePairs(t: int)
    ensures var first, second, ride := Indoor(1, t, false), Indoor(3, t + 1_000, false), Virtual(2, t + 600_000);
      Pairs([first, second], [ride]) == CleanupResult([1, 3], [MatchOf(first, ride), MatchOf(second, ride)])
  {
    var first, second, ride := Indoor(1, t, false), Indoor(3, t + 1_000, false), Virtual(2, t + 600_000);
    assert Pairs([first], [ride]) == CleanupResult([1], [MatchOf(first, ride)]) by {
      assert [first][..0] == [];
      assert FirstIndex([ride], NearTo(first)) == Some(0);
    }
    assert [first, second][..1] == [first];
    assert FirstIndex([ride], NearTo(second)) == Some(0);
  }

  /**
   * No exclusivity: two indoor rides near the same virtual ride are both hidden, and the same
   * virtual ride is reported for each.
   */
  lemma VirtualRideMayBeShared(t: int)
    ensures var all := [Indoor(1, t, false), Indoor(3, t + 1_000, false), Virtual(2, t + 600_000)];
      Cleanup(all).hidden == [1, 3]
      && Cleanup(all).matches[0].virtualRide == Cleanup(all).matches[1].virtualRide == Ref(Virtual(2, t + 600_000))
  {
    var first, second, ride := Indoor(1, t, false), Indoor(3, t + 1_000, false), Virtual(2, t + 600_000);
    var all := [first, second, ride];
    assert PublicIndoorBikeActivities(all) == [first, second] by {
      FilterOfThree(first, second, ride, IsCandidate);
      FilterOfTwo(first, second, IsCandidate);
    }
    assert VirtualRideActivities(all) == [ride] by {
      FilterOfThree(first, second, ride, IsVirtualRide);
      FilterOfTwo(first, second, IsVirtualRide);
    }
    SharedRideExamplePairs(t);
    assert Cleanup(all) == CleanupResult([1, 3], [MatchOf(first, ride), MatchOf(second, ride)]);
  }
}
