/**
 * The itinerary assembler of app/core/itinerary_planner.py
 * (`create_itinerary`): it pads the cluster map when there are fewer
 * clusters than days, then builds one day per day number, dated from the
 * start date, whose attractions are sorted by priority and handed to the day
 * scheduler.
 *
 * Dates are day numbers; the day map `clustered_attractions` is a `map` from
 * day index to that day's attractions.
 */
module ItineraryPlanner {
  import opened Common
  import StableSort
  import DayPlanner

  type Clusters = map<int, seq<Attraction>>

  /** Why padding raises: `i % 0`, or a cluster index that is not a key. */
  datatype PadError = ZeroDivision | MissingCluster(index: int)

  datatype Day = Day(
    dayNumber: int,
    date: int,
    hotelId: Option<int>,
    activities: seq<DayPlanner.Activity>)

  datatype Itinerary = Itinerary(
    destinationId: int,
    userId: Option<int>,
    startDate: int,
    endDate: int,
    hotelId: Option<int>,
    isRecommended: bool,
    days: seq<Day>)

  // ----- Priority order of a day's attractions -----

  /**
   * The sort key `(-is_must_visit, -rating)` of `a` is at most that of `b`:
   * must-visit attractions first, then higher ratings first.
   */
  predicate PriorityLe(a: Attraction, b: Attraction) {
    (a.mustVisit && !b.mustVisit) || (a.mustVisit == b.mustVisit && a.rating >= b.rating)
  }

  lemma PriorityIsTotalPreorder()
    ensures StableSort.TotalPreorder(PriorityLe)
  {
  }

  /**
   * `sorted(day_attractions, key=...)`: must-visit attractions come first,
   * ratings do not increase among attractions of equal must-visit status,
   * nothing is added or lost, and attractions with equal keys keep their
   * input order.
   */
  function SortByPriority(atts: seq<Attraction>): (r: seq<Attraction>)
    ensures multiset(r) == multiset(atts)
    ensures forall i, j :: 0 <= i < j < |r| && r[j].mustVisit ==> r[i].mustVisit
    ensures forall i, j :: 0 <= i < j < |r| && r[i].mustVisit == r[j].mustVisit ==> r[i].rating >= r[j].rating
    ensures forall e :: StableSort.Tied(r, e, PriorityLe) == StableSort.Tied(atts, e, PriorityLe)
  {
    PriorityIsTotalPreorder();
    var r := StableSort.Sort(atts, PriorityLe);
    assert forall i, j :: 0 <= i < j < |r| ==> PriorityLe(r[i], r[j]);
    r
  }

  /**
   * The activities of one day: none when the day has no attractions (the
   * scheduler is not called), otherwise the schedule of the attractions in
   * priority order, which opens with breakfast.
   */
  function DayPlan(cfg: DayPlanner.Config, dist: (Coord, Coord) -> real, atts: seq<Attraction>)
    : (r: seq<DayPlanner.Activity>)
    requires DayPlanner.ValidConfig(cfg)
    ensures r == [] <==> atts == []
    ensures atts != [] ==> r[0] == DayPlanner.Breakfast(cfg)
  {
    if atts == [] then []
    else
      DayPlanner.BreakfastOpensDay(cfg, dist, SortByPriority(atts));
      DayPlanner.DayActivities(cfg, dist, SortByPriority(atts))
  }

  // ----- Padding the cluster map -----

  /**
   * The padding loop from index `i` on, taking cluster `i % n` for day `i`,
   * where `n` is the number of clusters before padding: the cycling the
   * comment "Duplicate some clusters if needed" asks for.
   */
  function PadFrom(m: Clusters, n: nat, i: int, numDays: int): Result<Clusters, PadError>
    decreases numDays - i
  {
    if i >= numDays then Ok(m)
    else if n == 0 then Err(ZeroDivision)
    else if i % n !in m then Err(MissingCluster(i % n))
    else PadFrom(m[i := m[i % n]], n, i + 1, numDays)
  }

  /** Padding as the rest of this model uses it: only when there are fewer clusters than days. */
  function Pad(m: Clusters, numDays: int): Result<Clusters, PadError> {
    if |m| < numDays then PadFrom(m, |m|, |m|, numDays) else Ok(m)
  }

  /** The padding loop as written: the modulus `len(clustered_attractions)` is re-read as the map grows. */
  function PadFromAsWritten(m: Clusters, i: int, numDays: int): Result<Clusters, PadError>
    decreases numDays - i
  {
    if i >= numDays then Ok(m)
    else if |m| == 0 then Err(ZeroDivision)
    else if i % |m| !in m then Err(MissingCluster(i % |m|))
    else PadFromAsWritten(m[i := m[i % |m|]], i + 1, numDays)
  }

  function PadAsWritten(m: Clusters, numDays: int): Result<Clusters, PadError> {
    if |m| < numDays then PadFromAsWritten(m, |m|, numDays) else Ok(m)
  }

  /** What padding has done by index `i`: days `[n, i)` hold their cycled cluster, the rest is `m0`. */
  ghost predicate PaddedUpTo(m0: Clusters, cur: Clusters, n: nat, i: int) {
    && (forall j :: j in cur <==> j in m0 || n <= j < i)
    && (forall j :: n <= j < i ==> n > 0 && j % n in m0 && cur[j] == m0[j % n])
    && (forall j :: j in m0 && !(n <= j < i) ==> cur[j] == m0[j])
  }

  lemma {:induction false} PadFromCycles(m0: Clusters, cur: Clusters, n: nat, i: int, numDays: int)
    requires n <= i <= numDays
    requires PaddedUpTo(m0, cur, n, i)
    ensures PadFrom(cur, n, i, numDays).Ok? ==> PaddedUpTo(m0, PadFrom(cur, n, i, numDays).value, n, numDays)
    ensures PadFrom(cur, n, i, numDays).Err? <==>
      i < numDays && (n == 0 || exists j :: i <= j < numDays && j % n !in m0)
    ensures PadFrom(cur, n, i, numDays) == Err(ZeroDivision) <==> i < numDays && n == 0
    decreases numDays - i
  {
    if i < numDays && n > 0 {
      assert i % n < n;
      if i % n in m0 {
        var next := cur[i := cur[i % n]];
        assert PaddedUpTo(m0, next, n, i + 1);
        PadFromCycles(m0, next, n, i + 1, numDays);
        if exists j :: i <= j < numDays && j % n !in m0 {
          var j :| i <= j < numDays && j % n !in m0;
          assert i + 1 <= j;
        }
      }
    }
  }

  /**
   * Padding, whatever the keys: on success every day index in
   * `[len, num_days)` holds cluster `i mod len` and every other entry is
   * unchanged; it raises exactly when some such `i mod len` is not a key, and
   * divides by zero exactly when there are no clusters and at least one day.
   */
  lemma PadCycles(m: Clusters, numDays: int)
    ensures Pad(m, numDays).Ok? ==>
      var p := Pad(m, numDays).value;
      && (forall i :: i in p <==> i in m || |m| <= i < numDays)
      && (forall i :: |m| <= i < numDays ==> i % |m| in m && p[i] == m[i % |m|])
      && (forall i :: i in m && !(|m| <= i < numDays) ==> p[i] == m[i])
    ensures Pad(m, numDays).Err? <==>
      |m| < numDays && (|m| == 0 || exists i :: |m| <= i < numDays && i % |m| !in m)
    ensures Pad(m, numDays) == Err(ZeroDivision) <==> |m| == 0 && numDays > 0
  {
    if |m| < numDays {
      PadFromCycles(m, m, |m|, |m|, numDays);
    }
  }

  /** Clusters keyed `0 .. n-1`, as the clusterer produces when every label occurs. */
  ghost predicate KeysFromZero(m: Clusters) {
    forall i :: i in m <==> 0 <= i < |m|
  }

  /**
   * With keys `0 .. n-1` and at least one cluster, padding succeeds, covers
   * every day index and gives day `i` cluster `i mod n`.
   */
  lemma PadCyclesContiguous(m: Clusters, numDays: int)
    requires KeysFromZero(m) && |m| > 0
    ensures Pad(m, numDays).Ok?
    ensures var p := Pad(m, numDays).value;
      && (forall i :: i in p <==> 0 <= i < |m| || 0 <= i < numDays)
      && (forall i :: i in p ==> p[i] == m[i % |m|])
  {
    PadCycles(m, numDays);
    var p := Pad(m, numDays).value;
    forall i | i in p ensures p[i] == m[i % |m|] {
      if !(|m| <= i < numDays) {
        assert i % |m| == i;
      }
    }
  }

  /** What the loop as written has done by index `i`, keys `0 .. n-1`: every padded day copies cluster 0. */
  ghost predicate CopiedFirst(m0: Clusters, cur: Clusters, i: int) {
    && |m0| > 0
    && |m0| <= i
    && |cur| == i
    && (forall j :: j in cur <==> 0 <= j < i)
    && (forall j :: 0 <= j < |m0| ==> j in m0 && cur[j] == m0[j])
    && (forall j :: |m0| <= j < i ==> cur[j] == m0[0])
  }

  lemma {:induction false} PadFromAsWrittenCopiesFirst(m0: Clusters, cur: Clusters, i: int, numDays: int)
    requires i <= numDays
    requires CopiedFirst(m0, cur, i)
    ensures PadFromAsWritten(cur, i, numDays).Ok?
    ensures CopiedFirst(m0, PadFromAsWritten(cur, i, numDays).value, numDays)
    decreases numDays - i
  {
    if i < numDays {
      assert i % |cur| == 0;
      var next := cur[i := cur[0]];
      assert |next| == i + 1;
      PadFromAsWrittenCopiesFirst(m0, next, i + 1, numDays);
    }
  }

  /**
   * The loop as written, keys `0 .. n-1`: at index `i` the map already holds
   * `i` entries, so `i % len(...)` is 0 and every padded day gets cluster 0.
   */
  lemma PadAsWrittenCopiesFirst(m: Clusters, numDays: int)
    requires KeysFromZero(m) && |m| > 0
    ensures PadAsWritten(m, numDays).Ok?
    ensures forall i :: |m| <= i < numDays ==>
      i in PadAsWritten(m, numDays).value && PadAsWritten(m, numDays).value[i] == m[0]
  {
    if |m| < numDays {
      PadFromAsWrittenCopiesFirst(m, m, |m|, numDays);
    }
  }

  /** Two clusters, four days: the fourth day gets cluster 0 as written, cluster 1 = 3 mod 2 as intended. */
  lemma PadAsWrittenCounterexample()
    ensures var x := Attraction(1, "Old Town", "", Coord(0.0, 0.0), 4.5, false, None);
      var m: Clusters := map[0 := [], 1 := [x]];
      && PadAsWritten(m, 4).Ok? && 3 in PadAsWritten(m, 4).value && PadAsWritten(m, 4).value[3] == m[0]
      && Pad(m, 4).Ok? && 3 in Pad(m, 4).value && Pad(m, 4).value[3] == m[1]
      && m[0] != m[1]
  {
    var x := Attraction(1, "Old Town", "", Coord(0.0, 0.0), 4.5, false, None);
    var m: Clusters := map[0 := [], 1 := [x]];
    assert m.Keys == {0, 1};
    assert KeysFromZero(m);
    PadAsWrittenCopiesFirst(m, 4);
    PadCyclesContiguous(m, 4);
  }

  /**
   * What the itinerary's days would hold with the padding loop as written:
   * for clusters keyed `0 .. n-1`, every padded day index `i` in `[n, num_days)`
   * (day `i + 1`) plans the attractions of cluster 0.
   */
  lemma AsWrittenPaddedDaysPlanFirstCluster(
    cfg: DayPlanner.Config, dist: (Coord, Coord) -> real, m: Clusters, numDays: int)
    requires DayPlanner.ValidConfig(cfg)
    requires KeysFromZero(m) && |m| > 0
    ensures PadAsWritten(m, numDays).Ok?
    ensures forall i :: |m| <= i < numDays ==>
      DayPlan(cfg, dist, ClusterAt(PadAsWritten(m, numDays).value, i)) == DayPlan(cfg, dist, m[0])
  {
    PadAsWrittenCopiesFirst(m, numDays);
  }

  /**
   * The padding step of `create_itinerary`, with the modulus taken before
   * the loop: the map after the loop, or the error the loop raises.
   */
  method PadClusters(clusters: Clusters, numDays: int) returns (r: Result<Clusters, PadError>)
    ensures r == Pad(clusters, numDays)
  {
    var m := clusters;
    var n := |clusters|;
    if n < numDays {
      var i := n;
      while i < numDays
        invariant n <= i <= numDays
        invariant PadFrom(m, n, i, numDays) == PadFrom(clusters, n, n, numDays)
        decreases numDays - i
      {
        if n == 0 {
          return Err(ZeroDivision);
        }
        var clusterIdx := i % n;
        if clusterIdx !in m {
          return Err(MissingCluster(clusterIdx));
        }
        m := m[i := m[clusterIdx]];
        i := i + 1;
      }
    }
    return Ok(m);
  }

  // ----- The itinerary -----

  /** `clustered_attractions.get(i, [])`. */
  function ClusterAt(m: Clusters, i: int): seq<Attraction> {
    if i in m then m[i] else []
  }

  /**
   * `create_itinerary`: pads the cluster map (the map after padding is
   * returned as `padded`, since the source updates the caller's map), then
   * emits days 1 to `numDays` in order. Day `k` is dated `startDate + k - 1`
   * and plans the attractions of cluster `k - 1`; the end date is
   * `startDate + numDays - 1`. Padding errors propagate. With clusters keyed
   * `0 .. n-1`, `n > 0`, nothing fails and day `k` plans cluster `(k - 1) mod n`.
   */
  method CreateItinerary(
    cfg: DayPlanner.Config, dist: (Coord, Coord) -> real,
    destinationId: int, startDate: int, numDays: int, clusters: Clusters,
    hotelId: Option<int>, userId: Option<int>)
    returns (r: Result<Itinerary, PadError>, padded: Clusters)
    requires DayPlanner.ValidConfig(cfg)
    ensures Pad(clusters, numDays).Err? ==> r == Err(Pad(clusters, numDays).error) && padded == clusters
    ensures Pad(clusters, numDays).Ok? ==> r.Ok? && padded == Pad(clusters, numDays).value
    ensures r.Ok? ==>
      var it := r.value;
      && it.destinationId == destinationId && it.userId == userId && it.hotelId == hotelId
      && !it.isRecommended
      && it.startDate == startDate
      && it.endDate == startDate + numDays - 1
      && |it.days| == (if numDays > 0 then numDays else 0)
      && (forall k :: 0 <= k < |it.days| ==>
            && it.days[k].dayNumber == k + 1
            && it.days[k].date == startDate + k
            && it.days[k].hotelId == hotelId
            && it.days[k].activities == DayPlan(cfg, dist, ClusterAt(padded, k)))
    ensures KeysFromZero(clusters) && |clusters| > 0 ==>
      && r.Ok?
      && forall k :: 0 <= k < |r.value.days| ==>
           r.value.days[k].activities == DayPlan(cfg, dist, clusters[k % |clusters|])
  {
    var endDate := startDate + numDays - 1;
    if KeysFromZero(clusters) && |clusters| > 0 {
      PadCyclesContiguous(clusters, numDays);
    }
    var p := PadClusters(clusters, numDays);
    if p.Err? {
      return Err(p.error), clusters;
    }
    padded := p.value;

    var days: seq<Day> := [];
    var dayNumber := 1;
    while dayNumber <= numDays
      invariant 1 <= dayNumber && (dayNumber <= numDays + 1 || dayNumber == 1)
      invariant |days| == dayNumber - 1
      invariant forall k :: 0 <= k < |days| ==>
        && days[k].dayNumber == k + 1
        && days[k].date == startDate + k
        && days[k].hotelId == hotelId
        && days[k].activities == DayPlan(cfg, dist, ClusterAt(padded, k))
    {
      var dayDate := startDate + dayNumber - 1;
      var clusterIdx := dayNumber - 1;
      var dayAttractions := if clusterIdx in padded then padded[clusterIdx] else [];
      var activities: seq<DayPlanner.Activity> := [];
      if dayAttractions != [] {
        var ordered := SortByPriority(dayAttractions);
        activities := DayPlanner.CreateDayActivities(cfg, dist, ordered);
      }
      days := days + [Day(dayNumber, dayDate, hotelId, activities)];
      dayNumber := dayNumber + 1;
    }
    r := Ok(Itinerary(destinationId, userId, startDate, endDate, hotelId, false, days));
  }
}
