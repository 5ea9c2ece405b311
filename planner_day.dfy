/**
 * The day scheduler of app/core/itinerary_planner.py (`_create_day_activities`):
 * a single greedy pass over a day's attractions that threads a clock through
 * breakfast, an optional lunch, transfers, visits, an optional dinner and a
 * closing block of free time.
 *
 * `Run` and `DayActivities` state what the loop computes; the method
 * `CreateDayActivities` is the loop itself and is proved to compute it. The
 * lemmas at the end state what every day plan satisfies.
 */
module DayPlanner {
  import opened Common
  import opened PlannerTime

  /** The settings the scheduler reads (app/core/config.py). */
  datatype Config = Config(
    dayStartHour: int,
    dayEndHour: int,
    lunchHours: real,
    dinnerHours: real,
    speedKmh: real)

  /** `time(h, 0)` accepts hours 0 to 23 only; the travel estimate divides by the speed. */
  predicate ValidConfig(cfg: Config) {
    0 <= cfg.dayStartHour < 24 && 0 <= cfg.dayEndHour < 24 && cfg.speedKmh != 0.0
  }

  /** The shipped settings: 09:00 to 21:00, a one-hour lunch, a 90-minute dinner, 50 km/h. */
  const DefaultConfig: Config := Config(9, 21, 1.0, 1.5, 50.0)

  function DayStart(cfg: Config): Minute
    requires ValidConfig(cfg)
  {
    cfg.dayStartHour * 60
  }

  function DayEnd(cfg: Config): Minute
    requires ValidConfig(cfg)
  {
    cfg.dayEndHour * 60
  }

  function LunchMinutes(cfg: Config): int {
    Trunc(cfg.lunchHours * 60.0)
  }

  function DinnerMinutes(cfg: Config): int {
    Trunc(cfg.dinnerHours * 60.0)
  }

  const BreakfastMinutes: int := 60
  const LunchOpen: Minute := 12 * 60
  const LunchClose: Minute := 14 * 60
  const DinnerOpen: Minute := 18 * 60
  const DinnerClose: Minute := 20 * 60

  const BreakfastTitle: string := "Breakfast at hotel"
  const LunchTitle: string := "Lunch break"
  const DinnerTitle: string := "Dinner"
  const FreeTimeTitle: string := "Free time"

  /** `activity_type`: "meal", "transfer", "attraction" or "free_time". */
  datatype ActivityKind = Meal | Transfer | Visit | FreeTime

  datatype Activity = Activity(
    start: Minute,
    end: Minute,
    kind: ActivityKind,
    title: string,
    attractionId: Option<int>,
    startLocation: Option<Coord>,
    endLocation: Option<Coord>,
    travelMinutes: int)

  function MealAt(start: Minute, end: Minute, title: string): Activity {
    Activity(start, end, Meal, title, None, None, None, 0)
  }

  function Breakfast(cfg: Config): Activity
    requires ValidConfig(cfg)
  {
    MealAt(DayStart(cfg), AddTime(DayStart(cfg), BreakfastMinutes), BreakfastTitle)
  }

  function TransferAt(start: Minute, end: Minute, from: Coord, a: Attraction, minutes: int): Activity {
    Activity(start, end, Transfer, "Travel to " + a.name, None, Some(from), Some(a.location), minutes)
  }

  function VisitAt(start: Minute, end: Minute, a: Attraction): Activity {
    Activity(start, end, Visit, "Visit " + a.name, Some(a.id), Some(a.location), Some(a.location), 0)
  }

  function FreeTimeAt(start: Minute, end: Minute): Activity {
    Activity(start, end, FreeTime, FreeTimeTitle, None, None, None, 0)
  }

  /**
   * The loop's variables: `current_time`, `current_location`, the
   * `activities` list, and whether a lunch or a dinner has been emitted (the
   * source rescans the list for those; see `MealFlagsMatchScans`).
   */
  datatype DayState = DayState(
    clock: Minute,
    here: Option<Coord>,
    acts: seq<Activity>,
    lunched: bool,
    dined: bool)

  /** After breakfast, at the hotel. */
  function InitialState(cfg: Config): DayState
    requires ValidConfig(cfg)
  {
    DayState(AddTime(DayStart(cfg), BreakfastMinutes), None, [Breakfast(cfg)], false, false)
  }

  /** Lunch, if the clock is in the lunch window and none was emitted yet. */
  function WithLunch(cfg: Config, st: DayState): DayState {
    if IsTimeInRange(st.clock, LunchOpen, LunchClose) && !st.lunched then
      var e := AddTime(st.clock, LunchMinutes(cfg));
      st.(clock := e, acts := st.acts + [MealAt(st.clock, e, LunchTitle)], lunched := true)
    else st
  }

  /** A transfer to `a`, unless the day has not left the hotel yet. */
  function WithTransfer(cfg: Config, dist: (Coord, Coord) -> real, st: DayState, a: Attraction): DayState
    requires ValidConfig(cfg)
  {
    match st.here
    case None => st
    case Some(from) =>
      var d := EstimateTravelTime(dist(from, a.location), cfg.speedKmh);
      var e := AddTime(st.clock, d);
      st.(clock := e, acts := st.acts + [TransferAt(st.clock, e, from, a, d)])
  }

  function WithVisit(st: DayState, a: Attraction, e: Minute): DayState {
    st.(clock := e, here := Some(a.location), acts := st.acts + [VisitAt(st.clock, e, a)])
  }

  /** Dinner, if the clock is in the dinner window and none was emitted yet. */
  function WithDinner(cfg: Config, st: DayState): DayState {
    if IsTimeInRange(st.clock, DinnerOpen, DinnerClose) && !st.dined then
      var e := AddTime(st.clock, DinnerMinutes(cfg));
      st.(clock := e, acts := st.acts + [MealAt(st.clock, e, DinnerTitle)], dined := true)
    else st
  }

  /**
   * One pass of the loop body for attraction `a`. The second component is
   * true when the visit would end after the day end: the loop then breaks,
   * keeping the lunch and the transfer already emitted.
   */
  function Step(cfg: Config, dist: (Coord, Coord) -> real, st: DayState, a: Attraction): (DayState, bool)
    requires ValidConfig(cfg)
  {
    var s := WithTransfer(cfg, dist, WithLunch(cfg, st), a);
    var e := AddTime(s.clock, a.VisitLength());
    if CompareTimes(e, DayEnd(cfg)) > 0 then (s, true)
    else (WithDinner(cfg, WithVisit(s, a, e)), false)
  }

  /** The loop over the attractions, from state `st`. */
  function Run(cfg: Config, dist: (Coord, Coord) -> real, st: DayState, atts: seq<Attraction>): DayState
    requires ValidConfig(cfg)
    decreases |atts|
  {
    if atts == [] then st
    else
      var next := Step(cfg, dist, st, atts[0]);
      if next.1 then next.0 else Run(cfg, dist, next.0, atts[1..])
  }

  /** `current_time` once the loop is over. */
  function LoopClock(cfg: Config, dist: (Coord, Coord) -> real, atts: seq<Attraction>): Minute
    requires ValidConfig(cfg)
  {
    Run(cfg, dist, InitialState(cfg), atts).clock
  }

  /** Free time up to the day end, if the clock is still before it. */
  function Close(cfg: Config, st: DayState): seq<Activity>
    requires ValidConfig(cfg)
  {
    if CompareTimes(st.clock, DayEnd(cfg)) < 0 then st.acts + [FreeTimeAt(st.clock, DayEnd(cfg))]
    else st.acts
  }

  /** What `_create_day_activities` returns for attractions already in priority order. */
  function DayActivities(cfg: Config, dist: (Coord, Coord) -> real, atts: seq<Attraction>): seq<Activity>
    requires ValidConfig(cfg)
  {
    Close(cfg, Run(cfg, dist, InitialState(cfg), atts))
  }

  /** `_create_day_activities`, step by step. */
  method CreateDayActivities(cfg: Config, dist: (Coord, Coord) -> real, attractions: seq<Attraction>)
    returns (activities: seq<Activity>)
    requires ValidConfig(cfg)
    ensures activities == DayActivities(cfg, dist, attractions)
  {
    var currentTime: Minute := DayStart(cfg);
    var endTime: Minute := DayEnd(cfg);
    var breakfastEnd := AddTime(currentTime, BreakfastMinutes);
    activities := [MealAt(currentTime, breakfastEnd, BreakfastTitle)];
    currentTime := breakfastEnd;
    var currentLocation: Option<Coord> := None;
    var lunched, dined := false, false;
    ghost var result := Run(cfg, dist, InitialState(cfg), attractions);

    var i := 0;
    while i < |attractions|
      invariant 0 <= i <= |attractions|
      invariant Run(cfg, dist, DayState(currentTime, currentLocation, activities, lunched, dined),
                    attractions[i..]) == result
    {
      ghost var before := DayState(currentTime, currentLocation, activities, lunched, dined);
      var attraction := attractions[i];
      assert attractions[i..][0] == attraction && attractions[i..][1..] == attractions[i + 1..];

      if IsTimeInRange(currentTime, LunchOpen, LunchClose) && !lunched {
        var lunchEnd := AddTime(currentTime, LunchMinutes(cfg));
        activities := activities + [MealAt(currentTime, lunchEnd, LunchTitle)];
        lunched := true;
        currentTime := lunchEnd;
      }

      if currentLocation.Some? {
        var travel := EstimateTravelTime(dist(currentLocation.value, attraction.location), cfg.speedKmh);
        var travelEnd := AddTime(currentTime, travel);
        activities := activities + [TransferAt(currentTime, travelEnd, currentLocation.value, attraction, travel)];
        currentTime := travelEnd;
      }
      assert DayState(currentTime, currentLocation, activities, lunched, dined)
          == WithTransfer(cfg, dist, WithLunch(cfg, before), attraction);

      var visitEnd := AddTime(currentTime, attraction.VisitLength());
      if CompareTimes(visitEnd, endTime) > 0 {
        break;
      }

      activities := activities + [VisitAt(currentTime, visitEnd, attraction)];
      currentTime := visitEnd;
      currentLocation := Some(attraction.location);

      if IsTimeInRange(currentTime, DinnerOpen, DinnerClose) && !dined {
        var dinnerEnd := AddTime(currentTime, DinnerMinutes(cfg));
        activities := activities + [MealAt(currentTime, dinnerEnd, DinnerTitle)];
        dined := true;
        currentTime := dinnerEnd;
      }
      i := i + 1;
    }
    assert DayState(currentTime, currentLocation, activities, lunched, dined) == result;

    if CompareTimes(currentTime, endTime) < 0 {
      activities := activities + [FreeTimeAt(currentTime, endTime)];
    }
  }

  // ----- What holds of every state the loop reaches -----

  predicate IsLunch(a: Activity) {
    a.kind == Meal && a.title == LunchTitle
  }

  predicate IsDinner(a: Activity) {
    a.kind == Meal && a.title == DinnerTitle
  }

  /** Each activity starts when the previous one ends. */
  ghost predicate Contiguous(acts: seq<Activity>) {
    forall k :: 1 <= k < |acts| ==> acts[k].start == acts[k - 1].end
  }

  ghost predicate HasLunch(acts: seq<Activity>) {
    exists k :: 0 <= k < |acts| && IsLunch(acts[k])
  }

  ghost predicate HasDinner(acts: seq<Activity>) {
    exists k :: 0 <= k < |acts| && IsDinner(acts[k])
  }

  ghost predicate HasVisit(acts: seq<Activity>) {
    exists k :: 0 <= k < |acts| && acts[k].kind == Visit
  }

  ghost predicate AtMostOneLunch(acts: seq<Activity>) {
    forall i, j :: 0 <= i < |acts| && 0 <= j < |acts| && IsLunch(acts[i]) && IsLunch(acts[j]) ==> i == j
  }

  ghost predicate AtMostOneDinner(acts: seq<Activity>) {
    forall i, j :: 0 <= i < |acts| && 0 <= j < |acts| && IsDinner(acts[i]) && IsDinner(acts[j]) ==> i == j
  }

  /** A lunch starts inside [12:00, 14:00] and lasts the configured time. */
  ghost predicate LunchesInWindow(cfg: Config, acts: seq<Activity>) {
    forall k :: 0 <= k < |acts| && IsLunch(acts[k]) ==>
      LunchOpen <= acts[k].start <= LunchClose && acts[k].end == AddTime(acts[k].start, LunchMinutes(cfg))
  }

  /** A dinner directly follows a visit, starts inside [18:00, 20:00] and lasts the configured time. */
  ghost predicate DinnersAfterVisits(cfg: Config, acts: seq<Activity>) {
    forall k :: 0 <= k < |acts| && IsDinner(acts[k]) ==>
      1 <= k && acts[k - 1].kind == Visit
      && DinnerOpen <= acts[k].start <= DinnerClose
      && acts[k].end == AddTime(acts[k].start, DinnerMinutes(cfg))
  }

  /** A transfer lasts at least five minutes and comes after some visit. */
  ghost predicate TransfersAfterVisits(acts: seq<Activity>) {
    forall k :: 0 <= k < |acts| && acts[k].kind == Transfer ==>
      acts[k].travelMinutes >= MinTravelMinutes
      && acts[k].end == AddTime(acts[k].start, acts[k].travelMinutes)
      && exists j :: 0 <= j < k && acts[j].kind == Visit
  }

  /** Every visit but the first comes straight after a transfer. */
  ghost predicate TransferBeforeVisits(acts: seq<Activity>) {
    forall k :: 1 <= k < |acts| && acts[k].kind == Visit && HasVisit(acts[..k]) ==> acts[k - 1].kind == Transfer
  }

  /** No visit ends after the day end (compared as times of day). */
  ghost predicate VisitsFit(cfg: Config, acts: seq<Activity>)
    requires ValidConfig(cfg)
  {
    forall k :: 0 <= k < |acts| && acts[k].kind == Visit ==> acts[k].end <= DayEnd(cfg)
  }

  /** Apart from breakfast, the only meals are lunch and dinner; there is no free time yet. */
  ghost predicate LoopKinds(acts: seq<Activity>) {
    forall k :: 1 <= k < |acts| ==>
      acts[k].kind != FreeTime
      && (acts[k].kind == Meal ==> acts[k].title == LunchTitle || acts[k].title == DinnerTitle)
  }

  ghost predicate Inv(cfg: Config, st: DayState)
    requires ValidConfig(cfg)
  {
    && |st.acts| >= 1
    && st.acts[0] == Breakfast(cfg)
    && st.acts[|st.acts| - 1].end == st.clock
    && Contiguous(st.acts)
    && LoopKinds(st.acts)
    && (st.lunched <==> HasLunch(st.acts)) && AtMostOneLunch(st.acts)
    && (st.dined <==> HasDinner(st.acts)) && AtMostOneDinner(st.acts)
    && LunchesInWindow(cfg, st.acts)
    && DinnersAfterVisits(cfg, st.acts)
    && TransfersAfterVisits(st.acts)
    && VisitsFit(cfg, st.acts)
    && TransferBeforeVisits(st.acts)
    && (st.here.Some? <==> HasVisit(st.acts))
  }

  lemma InitialInv(cfg: Config)
    requires ValidConfig(cfg)
    ensures Inv(cfg, InitialState(cfg))
  {
  }

  // Appending one activity keeps each part of the invariant, given what holds of it.

  lemma AppendContiguous(acts: seq<Activity>, x: Activity)
    requires Contiguous(acts) && |acts| >= 1 && x.start == acts[|acts| - 1].end
    ensures Contiguous(acts + [x])
  {
  }

  lemma AppendLoopKinds(acts: seq<Activity>, x: Activity)
    requires LoopKinds(acts) && x.kind != FreeTime
    requires x.kind == Meal ==> x.title == LunchTitle || x.title == DinnerTitle
    ensures LoopKinds(acts + [x])
  {
  }

  lemma AppendLunch(cfg: Config, acts: seq<Activity>, x: Activity)
    requires AtMostOneLunch(acts) && LunchesInWindow(cfg, acts)
    requires IsLunch(x) ==>
               !HasLunch(acts) && LunchOpen <= x.start <= LunchClose
               && x.end == AddTime(x.start, LunchMinutes(cfg))
    ensures HasLunch(acts + [x]) <==> HasLunch(acts) || IsLunch(x)
    ensures AtMostOneLunch(acts + [x]) && LunchesInWindow(cfg, acts + [x])
  {
    var r := acts + [x];
    if HasLunch(acts) {
      var k :| 0 <= k < |acts| && IsLunch(acts[k]);
      assert IsLunch(r[k]);
    }
    if IsLunch(x) {
      assert IsLunch(r[|acts|]);
    }
  }

  lemma AppendDinner(cfg: Config, acts: seq<Activity>, x: Activity)
    requires AtMostOneDinner(acts) && DinnersAfterVisits(cfg, acts)
    requires IsDinner(x) ==>
               !HasDinner(acts) && |acts| >= 1 && acts[|acts| - 1].kind == Visit
               && DinnerOpen <= x.start <= DinnerClose
               && x.end == AddTime(x.start, DinnerMinutes(cfg))
    ensures HasDinner(acts + [x]) <==> HasDinner(acts) || IsDinner(x)
    ensures AtMostOneDinner(acts + [x]) && DinnersAfterVisits(cfg, acts + [x])
  {
    var r := acts + [x];
    if HasDinner(acts) {
      var k :| 0 <= k < |acts| && IsDinner(acts[k]);
      assert IsDinner(r[k]);
    }
    if IsDinner(x) {
      assert IsDinner(r[|acts|]);
    }
  }

  lemma AppendTransfer(acts: seq<Activity>, x: Activity)
    requires TransfersAfterVisits(acts)
    requires x.kind == Transfer ==>
               x.travelMinutes >= MinTravelMinutes
               && x.end == AddTime(x.start, x.travelMinutes) && HasVisit(acts)
    ensures TransfersAfterVisits(acts + [x])
    ensures HasVisit(acts + [x]) <==> HasVisit(acts) || x.kind == Visit
  {
    var r := acts + [x];
    if HasVisit(acts) {
      var j :| 0 <= j < |acts| && acts[j].kind == Visit;
      assert r[j].kind == Visit;
    }
    if x.kind == Visit {
      assert r[|acts|].kind == Visit;
    }
    forall k | 0 <= k < |r| && r[k].kind == Transfer
      ensures exists j :: 0 <= j < k && r[j].kind == Visit
    {
      if k < |acts| {
        var j :| 0 <= j < k && acts[j].kind == Visit;
        assert r[j].kind == Visit;
      } else {
        var j :| 0 <= j < |acts| && acts[j].kind == Visit;
        assert r[j].kind == Visit;
      }
    }
  }

  lemma AppendVisit(cfg: Config, acts: seq<Activity>, x: Activity)
    requires ValidConfig(cfg) && VisitsFit(cfg, acts)
    requires x.kind == Visit ==> x.end <= DayEnd(cfg)
    ensures VisitsFit(cfg, acts + [x])
  {
  }

  lemma AppendVisitOrder(acts: seq<Activity>, x: Activity)
    requires TransferBeforeVisits(acts) && |acts| >= 1
    requires x.kind == Visit && HasVisit(acts) ==> acts[|acts| - 1].kind == Transfer
    ensures TransferBeforeVisits(acts + [x])
  {
    var r := acts + [x];
    assert r[..|acts|] == acts;
    forall k | 1 <= k < |acts| ensures r[..k] == acts[..k] {
    }
  }

  /** Appending `x` to a reachable state gives a reachable state, given what holds of `x`. */
  lemma {:induction false} AppendKeepsInv(cfg: Config, st: DayState, s: DayState, x: Activity)
    requires ValidConfig(cfg) && Inv(cfg, st)
    requires s.acts == st.acts + [x] && s.clock == x.end && x.start == st.clock
    requires x.kind != FreeTime && (x.kind == Meal ==> x.title == LunchTitle || x.title == DinnerTitle)
    requires s.lunched == (st.lunched || IsLunch(x))
    requires IsLunch(x) ==>
               !st.lunched && LunchOpen <= x.start <= LunchClose
               && x.end == AddTime(x.start, LunchMinutes(cfg))
    requires s.dined == (st.dined || IsDinner(x))
    requires IsDinner(x) ==>
               !st.dined && st.acts[|st.acts| - 1].kind == Visit
               && DinnerOpen <= x.start <= DinnerClose
               && x.end == AddTime(x.start, DinnerMinutes(cfg))
    requires x.kind == Transfer ==>
               x.travelMinutes >= MinTravelMinutes
               && x.end == AddTime(x.start, x.travelMinutes) && st.here.Some?
    requires x.kind == Visit ==> x.end <= DayEnd(cfg)
    requires x.kind == Visit && st.here.Some? ==> st.acts[|st.acts| - 1].kind == Transfer
    requires s.here.Some? <==> st.here.Some? || x.kind == Visit
    ensures Inv(cfg, s)
  {
    AppendVisitOrder(st.acts, x);
    AppendContiguous(st.acts, x);
    AppendLoopKinds(st.acts, x);
    AppendLunch(cfg, st.acts, x);
    AppendDinner(cfg, st.acts, x);
    AppendTransfer(st.acts, x);
    AppendVisit(cfg, st.acts, x);
    assert s.acts[0] == st.acts[0];
  }

  lemma {:induction false} LunchKeepsInv(cfg: Config, st: DayState)
    requires ValidConfig(cfg) && Inv(cfg, st)
    ensures Inv(cfg, WithLunch(cfg, st))
  {
    var s := WithLunch(cfg, st);
    if s != st {
      AppendKeepsInv(cfg, st, s, s.acts[|st.acts|]);
    }
  }

  lemma {:induction false} TransferKeepsInv(cfg: Config, dist: (Coord, Coord) -> real, st: DayState, a: Attraction)
    requires ValidConfig(cfg) && Inv(cfg, st)
    ensures Inv(cfg, WithTransfer(cfg, dist, st, a))
  {
    if st.here.Some? {
      var s := WithTransfer(cfg, dist, st, a);
      AppendKeepsInv(cfg, st, s, s.acts[|st.acts|]);
    }
  }

  lemma {:induction false} VisitKeepsInv(cfg: Config, st: DayState, a: Attraction, e: Minute)
    requires ValidConfig(cfg) && Inv(cfg, st) && e <= DayEnd(cfg)
    requires st.here.Some? ==> st.acts[|st.acts| - 1].kind == Transfer
    ensures Inv(cfg, WithVisit(st, a, e))
  {
    var s := WithVisit(st, a, e);
    AppendKeepsInv(cfg, st, s, s.acts[|st.acts|]);
  }

  lemma {:induction false} DinnerKeepsInv(cfg: Config, st: DayState)
    requires ValidConfig(cfg) && Inv(cfg, st) && st.acts[|st.acts| - 1].kind == Visit
    ensures Inv(cfg, WithDinner(cfg, st))
  {
    var s := WithDinner(cfg, st);
    if s != st {
      AppendKeepsInv(cfg, st, s, s.acts[|st.acts|]);
    }
  }

  /** Once the day has left the hotel, a transfer is the last thing `WithTransfer` leaves. */
  lemma TransferComesLast(cfg: Config, dist: (Coord, Coord) -> real, st: DayState, a: Attraction)
    requires ValidConfig(cfg)
    ensures var s := WithTransfer(cfg, dist, st, a);
      s.here == st.here && (s.here.Some? ==> |s.acts| >= 1 && s.acts[|s.acts| - 1].kind == Transfer)
  {
  }

  /** The part of the loop body before the end-of-day test. */
  lemma {:induction false} PrepareKeepsInv(cfg: Config, dist: (Coord, Coord) -> real, st: DayState, a: Attraction)
    requires ValidConfig(cfg) && Inv(cfg, st)
    ensures var s := WithTransfer(cfg, dist, WithLunch(cfg, st), a);
      Inv(cfg, s) && (s.here.Some? ==> s.acts[|s.acts| - 1].kind == Transfer)
  {
    var l := WithLunch(cfg, st);
    LunchKeepsInv(cfg, st);
    TransferKeepsInv(cfg, dist, l, a);
    TransferComesLast(cfg, dist, l, a);
  }

  /** The part of the loop body after the end-of-day test, when the visit fits. */
  lemma {:induction false} FitKeepsInv(cfg: Config, s: DayState, a: Attraction, e: Minute)
    requires ValidConfig(cfg) && Inv(cfg, s) && e <= DayEnd(cfg)
    requires s.here.Some? ==> s.acts[|s.acts| - 1].kind == Transfer
    ensures Inv(cfg, WithDinner(cfg, WithVisit(s, a, e)))
  {
    VisitKeepsInv(cfg, s, a, e);
    DinnerKeepsInv(cfg, WithVisit(s, a, e));
  }

  lemma {:induction false} StepKeepsInv(cfg: Config, dist: (Coord, Coord) -> real, st: DayState, a: Attraction)
    requires ValidConfig(cfg) && Inv(cfg, st)
    ensures Inv(cfg, Step(cfg, dist, st, a).0)
  {
    var s := WithTransfer(cfg, dist, WithLunch(cfg, st), a);
    PrepareKeepsInv(cfg, dist, st, a);
    var e := AddTime(s.clock, a.VisitLength());
    if CompareTimes(e, DayEnd(cfg)) <= 0 {
      FitKeepsInv(cfg, s, a, e);
    }
  }

  lemma {:induction false} RunKeepsInv(cfg: Config, dist: (Coord, Coord) -> real, st: DayState, atts: seq<Attraction>)
    requires ValidConfig(cfg) && Inv(cfg, st)
    ensures Inv(cfg, Run(cfg, dist, st, atts))
    decreases |atts|
  {
    if atts != [] {
      StepKeepsInv(cfg, dist, st, atts[0]);
      var next := Step(cfg, dist, st, atts[0]);
      if !next.1 {
        RunKeepsInv(cfg, dist, next.0, atts[1..]);
      }
    }
  }

  // ----- Titles and the source's meal scans -----

  /** Python's `w in s` on strings. */
  predicate Contains(s: string, w: string)
    decreases |s|
  {
    |w| <= |s| && (s[..|w|] == w || Contains(s[1..], w))
  }

  lemma {:induction false} MissingInitial(s: string, w: string)
    requires |w| > 0 && w[0] !in s
    ensures !Contains(s, w)
    decreases |s|
  {
    if |w| <= |s| {
      assert s[0] in s;
      assert forall c :: c in s[1..] ==> c in s;
      MissingInitial(s[1..], w);
    }
  }

  lemma BreakfastTitleLetters()
    ensures 'L' !in BreakfastTitle && 'D' !in BreakfastTitle
  {
  }

  /** Which meal titles the scans for "Lunch" and "Dinner" match. */
  lemma LunchTitleScans()
    ensures Contains(LunchTitle, "Lunch") && !Contains(DinnerTitle, "Lunch") && !Contains(BreakfastTitle, "Lunch")
  {
    assert LunchTitle[..5] == "Lunch";
    assert 'L' !in DinnerTitle;
    MissingInitial(DinnerTitle, "Lunch");
    BreakfastTitleLetters();
    MissingInitial(BreakfastTitle, "Lunch");
  }

  lemma DinnerTitleScans()
    ensures Contains(DinnerTitle, "Dinner") && !Contains(LunchTitle, "Dinner") && !Contains(BreakfastTitle, "Dinner")
  {
    assert DinnerTitle[..6] == "Dinner";
    assert 'D' !in LunchTitle;
    MissingInitial(LunchTitle, "Dinner");
    BreakfastTitleLetters();
    MissingInitial(BreakfastTitle, "Dinner");
  }

  /** `any(a["activity_type"] == "meal" and word in a["title"] for a in activities)`. */
  ghost predicate MealScan(acts: seq<Activity>, word: string) {
    exists k :: 0 <= k < |acts| && MealMentions(acts[k], word)
  }

  /** One entry of the scan: a meal whose title mentions `word`. */
  predicate MealMentions(a: Activity, word: string) {
    a.kind == Meal && Contains(a.title, word)
  }

  lemma MentionsMatchTitle(a: Activity)
    requires a.kind == Meal ==> a.title == BreakfastTitle || a.title == LunchTitle || a.title == DinnerTitle
    ensures MealMentions(a, "Lunch") <==> IsLunch(a)
    ensures MealMentions(a, "Dinner") <==> IsDinner(a)
  {
    if a.kind == Meal {
      LunchTitleScans();
      DinnerTitleScans();
    }
  }

  lemma ScansMatchTitles(acts: seq<Activity>)
    requires |acts| >= 1 && acts[0].kind == Meal && acts[0].title == BreakfastTitle && LoopKinds(acts)
    ensures HasLunch(acts) <==> MealScan(acts, "Lunch")
    ensures HasDinner(acts) <==> MealScan(acts, "Dinner")
  {
    forall k | 0 <= k < |acts|
      ensures (MealMentions(acts[k], "Lunch") <==> IsLunch(acts[k]))
           && (MealMentions(acts[k], "Dinner") <==> IsDinner(acts[k]))
    {
      MentionsMatchTitle(acts[k]);
    }
  }

  /** The lunch and dinner flags of every reachable state are the source's scans of the list. */
  lemma MealFlagsMatchScans(cfg: Config, st: DayState)
    requires ValidConfig(cfg) && Inv(cfg, st)
    ensures st.lunched <==> MealScan(st.acts, "Lunch")
    ensures st.dined <==> MealScan(st.acts, "Dinner")
  {
    ScansMatchTitles(st.acts);
  }

  // ----- What every day plan satisfies -----

  /** The loop ends in a reachable state; the plan is that state closed off with free time. */
  lemma {:induction false} LoopEndInv(cfg: Config, dist: (Coord, Coord) -> real, atts: seq<Attraction>)
    requires ValidConfig(cfg)
    ensures Inv(cfg, Run(cfg, dist, InitialState(cfg), atts))
  {
    InitialInv(cfg);
    RunKeepsInv(cfg, dist, InitialState(cfg), atts);
  }

  /** The day opens with a 60-minute breakfast at the configured start hour. */
  lemma BreakfastOpensDay(cfg: Config, dist: (Coord, Coord) -> real, atts: seq<Attraction>)
    requires ValidConfig(cfg)
    ensures var acts := DayActivities(cfg, dist, atts);
      && |acts| >= 1
      && acts[0] == Breakfast(cfg)
      && acts[0].kind == Meal && acts[0].title == BreakfastTitle
      && acts[0].start == cfg.dayStartHour * 60
      && acts[0].end == AddTime(acts[0].start, BreakfastMinutes)
  {
    LoopEndInv(cfg, dist, atts);
  }

  /** Every activity starts exactly when the previous one ends. */
  lemma ActivitiesAreContiguous(cfg: Config, dist: (Coord, Coord) -> real, atts: seq<Attraction>)
    requires ValidConfig(cfg)
    ensures var acts := DayActivities(cfg, dist, atts);
      forall k :: 1 <= k < |acts| ==> acts[k].start == acts[k - 1].end
  {
    var st := Run(cfg, dist, InitialState(cfg), atts);
    LoopEndInv(cfg, dist, atts);
    if CompareTimes(st.clock, DayEnd(cfg)) < 0 {
      AppendContiguous(st.acts, FreeTimeAt(st.clock, DayEnd(cfg)));
    }
  }

  /**
   * At most one lunch and one dinner. A lunch starts inside [12:00, 14:00]
   * and lasts the configured time; a dinner directly follows a visit, starts
   * inside [18:00, 20:00] and lasts the configured time.
   */
  lemma MealsAtMostOnce(cfg: Config, dist: (Coord, Coord) -> real, atts: seq<Attraction>)
    requires ValidConfig(cfg)
    ensures var acts := DayActivities(cfg, dist, atts);
      && AtMostOneLunch(acts) && LunchesInWindow(cfg, acts)
      && AtMostOneDinner(acts) && DinnersAfterVisits(cfg, acts)
  {
    var st := Run(cfg, dist, InitialState(cfg), atts);
    LoopEndInv(cfg, dist, atts);
    if CompareTimes(st.clock, DayEnd(cfg)) < 0 {
      AppendLunch(cfg, st.acts, FreeTimeAt(st.clock, DayEnd(cfg)));
      AppendDinner(cfg, st.acts, FreeTimeAt(st.clock, DayEnd(cfg)));
    }
  }

  /**
   * No transfer comes before the first visit; every transfer lasts at least
   * five minutes; every visit but the first comes straight after a transfer.
   */
  lemma TransfersLinkVisits(cfg: Config, dist: (Coord, Coord) -> real, atts: seq<Attraction>)
    requires ValidConfig(cfg)
    ensures var acts := DayActivities(cfg, dist, atts);
      TransfersAfterVisits(acts) && TransferBeforeVisits(acts)
  {
    var st := Run(cfg, dist, InitialState(cfg), atts);
    LoopEndInv(cfg, dist, atts);
    if CompareTimes(st.clock, DayEnd(cfg)) < 0 {
      AppendTransfer(st.acts, FreeTimeAt(st.clock, DayEnd(cfg)));
      AppendVisitOrder(st.acts, FreeTimeAt(st.clock, DayEnd(cfg)));
    }
  }

  /** Every visit ends no later than the day end, as compared on the wrapped clock. */
  lemma VisitsEndByDayEnd(cfg: Config, dist: (Coord, Coord) -> real, atts: seq<Attraction>)
    requires ValidConfig(cfg)
    ensures var acts := DayActivities(cfg, dist, atts);
      forall k :: 0 <= k < |acts| && acts[k].kind == Visit ==> acts[k].end <= cfg.dayEndHour * 60
  {
    LoopEndInv(cfg, dist, atts);
  }

  /**
   * Free time is emitted exactly when the loop leaves the clock before the
   * day end; it is then the last activity and runs from that clock to the
   * day end. Otherwise the last activity ends at the clock.
   */
  lemma FreeTimeClosesDay(cfg: Config, dist: (Coord, Coord) -> real, atts: seq<Attraction>)
    requires ValidConfig(cfg)
    ensures var acts := DayActivities(cfg, dist, atts);
      var c := LoopClock(cfg, dist, atts);
      && |acts| >= 1
      && (acts[|acts| - 1].kind == FreeTime <==> c < DayEnd(cfg))
      && (c < DayEnd(cfg) ==> acts[|acts| - 1] == FreeTimeAt(c, DayEnd(cfg)))
      && (c >= DayEnd(cfg) ==> acts[|acts| - 1].end == c)
      && forall k :: 0 <= k < |acts| - 1 ==> acts[k].kind != FreeTime
  {
    LoopEndInv(cfg, dist, atts);
  }

  // ----- Which attractions are visited -----

  /** The visit activities of a plan, in order. */
  function Visits(acts: seq<Activity>): seq<Activity> {
    if acts == [] then []
    else Visits(acts[..|acts| - 1]) + (if acts[|acts| - 1].kind == Visit then [acts[|acts| - 1]] else [])
  }

  lemma VisitsAppend(acts: seq<Activity>, x: Activity)
    ensures Visits(acts + [x]) == Visits(acts) + (if x.kind == Visit then [x] else [])
  {
    assert (acts + [x])[..|acts|] == acts;
  }

  /** `v` is the visit of `a`: it names `a`, sits at `a`'s location and lasts `a`'s visit length. */
  predicate VisitMatches(v: Activity, a: Attraction) {
    v == VisitAt(v.start, AddTime(v.start, a.VisitLength()), a)
  }

  /** The `f` visits of `vs` from index `from` on are those of the first `f` attractions. */
  predicate MatchedFrom(vs: seq<Activity>, from: nat, atts: seq<Attraction>, f: nat) {
    && from + f <= |vs|
    && f <= |atts|
    && forall k :: 0 <= k < f ==> VisitMatches(vs[from + k], atts[k])
  }

  /** How many attractions the loop visits from state `st`. */
  ghost function Fitted(cfg: Config, dist: (Coord, Coord) -> real, st: DayState, atts: seq<Attraction>): nat
    requires ValidConfig(cfg)
    decreases |atts|
  {
    if atts == [] then 0
    else
      var next := Step(cfg, dist, st, atts[0]);
      if next.1 then 0 else 1 + Fitted(cfg, dist, next.0, atts[1..])
  }

  lemma LunchKeepsVisits(cfg: Config, st: DayState)
    ensures Visits(WithLunch(cfg, st).acts) == Visits(st.acts)
  {
    var l := WithLunch(cfg, st);
    if l != st {
      VisitsAppend(st.acts, l.acts[|st.acts|]);
    }
  }

  lemma TransferKeepsVisits(cfg: Config, dist: (Coord, Coord) -> real, st: DayState, a: Attraction)
    requires ValidConfig(cfg)
    ensures Visits(WithTransfer(cfg, dist, st, a).acts) == Visits(st.acts)
  {
    var s := WithTransfer(cfg, dist, st, a);
    if s != st {
      VisitsAppend(st.acts, s.acts[|st.acts|]);
    }
  }

  lemma DinnerKeepsVisits(cfg: Config, st: DayState)
    ensures Visits(WithDinner(cfg, st).acts) == Visits(st.acts)
  {
    var d := WithDinner(cfg, st);
    if d != st {
      VisitsAppend(st.acts, d.acts[|st.acts|]);
    }
  }

  lemma {:induction false} StepVisits(cfg: Config, dist: (Coord, Coord) -> real, st: DayState, a: Attraction)
    requires ValidConfig(cfg)
    ensures var next := Step(cfg, dist, st, a);
      && (next.1 ==> Visits(next.0.acts) == Visits(st.acts)
                     && AddTime(next.0.clock, a.VisitLength()) > DayEnd(cfg))
      && (!next.1 ==> exists v :: Visits(next.0.acts) == Visits(st.acts) + [v] && VisitMatches(v, a))
  {
    var l := WithLunch(cfg, st);
    LunchKeepsVisits(cfg, st);
    var s := WithTransfer(cfg, dist, l, a);
    TransferKeepsVisits(cfg, dist, l, a);
    var e := AddTime(s.clock, a.VisitLength());
    if CompareTimes(e, DayEnd(cfg)) <= 0 {
      var w := WithVisit(s, a, e);
      var v := VisitAt(s.clock, e, a);
      VisitsAppend(s.acts, v);
      DinnerKeepsVisits(cfg, w);
      assert Visits(WithDinner(cfg, w).acts) == Visits(st.acts) + [v] && VisitMatches(v, a);
    }
  }

  lemma {:induction false} RunVisits(cfg: Config, dist: (Coord, Coord) -> real, st: DayState, atts: seq<Attraction>)
    requires ValidConfig(cfg)
    ensures var f := Fitted(cfg, dist, st, atts);
      var end := Run(cfg, dist, st, atts);
      && f <= |atts|
      && |Visits(end.acts)| == |Visits(st.acts)| + f
      && Visits(st.acts) <= Visits(end.acts)
      && MatchedFrom(Visits(end.acts), |Visits(st.acts)|, atts, f)
      && (f < |atts| ==> AddTime(end.clock, atts[f].VisitLength()) > DayEnd(cfg))
    decreases |atts|
  {
    if atts != [] {
      var a := atts[0];
      var next := Step(cfg, dist, st, a);
      var end := Run(cfg, dist, st, atts);
      var f := Fitted(cfg, dist, st, atts);
      StepVisits(cfg, dist, st, a);
      if next.1 {
        assert end == next.0 && f == 0;
      } else {
        var rest := atts[1..];
        var mid := next.0;
        assert end == Run(cfg, dist, mid, rest) && f == 1 + Fitted(cfg, dist, mid, rest);
        var v :| Visits(mid.acts) == Visits(st.acts) + [v] && VisitMatches(v, a);
        RunVisits(cfg, dist, mid, rest);
        var before := Visits(st.acts);
        var after := Visits(end.acts);
        MatchesExtend(before, v, after, atts, f);
      }
    }
  }

  /** One more matched visit in front of the matches the rest of the loop produced. */
  lemma MatchesExtend(before: seq<Activity>, v: Activity, after: seq<Activity>, atts: seq<Attraction>, f: nat)
    requires 1 <= f <= |atts|
    requires VisitMatches(v, atts[0])
    requires |after| == |before| + 1 + (f - 1)
    requires before + [v] <= after
    requires MatchedFrom(after, |before| + 1, atts[1..], f - 1)
    ensures before <= after
    ensures MatchedFrom(after, |before|, atts, f)
  {
    forall k | 0 <= k < f ensures VisitMatches(after[|before| + k], atts[k]) {
      if k == 0 {
        assert after[|before|] == (before + [v])[|before|];
      } else {
        assert atts[k] == atts[1..][k - 1];
        assert |before| + k == |before| + 1 + (k - 1);
      }
    }
    assert before == after[..|before|] by {
      assert before == (before + [v])[..|before|];
    }
  }

  /**
   * The visits follow the priority order: the first `n` attractions are
   * visited, each once with its own visit length, and if `n` falls short the
   * next attraction did not fit before the day end; the loop stopped there
   * and dropped the rest.
   */
  lemma VisitsFollowPriorityOrder(cfg: Config, dist: (Coord, Coord) -> real, atts: seq<Attraction>)
    requires ValidConfig(cfg)
    ensures var vs := Visits(DayActivities(cfg, dist, atts));
      && |vs| <= |atts|
      && (forall k :: 0 <= k < |vs| ==> VisitMatches(vs[k], atts[k]))
      && (|vs| < |atts| ==> AddTime(LoopClock(cfg, dist, atts), atts[|vs|].VisitLength()) > cfg.dayEndHour * 60)
  {
    var st0 := InitialState(cfg);
    var st := Run(cfg, dist, st0, atts);
    RunVisits(cfg, dist, st0, atts);
    assert Visits(st0.acts) == [] by {
      assert [Breakfast(cfg)][..0] == [];
    }
    var f := Fitted(cfg, dist, st0, atts);
    var vs := Visits(DayActivities(cfg, dist, atts));
    assert vs == Visits(st.acts) by {
      if CompareTimes(st.clock, DayEnd(cfg)) < 0 {
        VisitsAppend(st.acts, FreeTimeAt(st.clock, DayEnd(cfg)));
      }
    }
    assert |vs| == f && MatchedFrom(vs, 0, atts, f);
  }
}
