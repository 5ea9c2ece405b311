/**
 * The ordering and range checks of app/api/schemas/itinerary.py that an
 * activity, an itinerary and an itinerary request must pass.
 *
 * A field that failed its own validation is absent from the values a later
 * validator sees; that is modelled by `None`.
 */
module ItinerarySchemas {
  import opened Common
  import opened PlannerTime

  /** `end_time_after_start_time`: rejects an end before the start, and only when the start validated. */
  function ValidateEndTime(startTime: Option<Minute>, endTime: Minute): (r: Result<Minute, string>)
    ensures r.Err? <==> startTime.Some? && endTime < startTime.value
    ensures r.Ok? ==> r.value == endTime
  {
    if startTime.Some? && endTime < startTime.value then Err("end_time must be after start_time")
    else Ok(endTime)
  }

  /** `end_date_after_start_date`: the same check on day numbers; a one-day trip passes. */
  function ValidateEndDate(startDate: Option<int>, endDate: int): (r: Result<int, string>)
    ensures r.Err? <==> startDate.Some? && endDate < startDate.value
    ensures r.Ok? ==> r.value == endDate
  {
    if startDate.Some? && endDate < startDate.value then Err("end_date must be after or equal to start_date")
    else Ok(endDate)
  }

  /** The constrained fields of `ItineraryRequest`. */
  datatype RequestField = NumNights | PreferredHotelRating

  const MinNights: int := 1
  const MaxNights: int := 14
  const MinHotelRating: real := 1.0
  const MaxHotelRating: real := 5.0

  /**
   * The fields of an `ItineraryRequest` that break their range constraint,
   * in field order: `num_nights` must lie in 1..14, `preferred_hotel_rating`
   * must be absent or lie in [1.0, 5.0]. The request is accepted exactly
   * when the list is empty.
   */
  function RequestErrors(numNights: int, preferredHotelRating: Option<real>): (errs: seq<RequestField>)
    ensures NumNights in errs <==> !(MinNights <= numNights <= MaxNights)
    ensures PreferredHotelRating in errs <==>
      preferredHotelRating.Some? && !(MinHotelRating <= preferredHotelRating.value <= MaxHotelRating)
    ensures |errs| <= 2
    ensures errs == [] <==>
      MinNights <= numNights <= MaxNights
      && (preferredHotelRating.None? || MinHotelRating <= preferredHotelRating.value <= MaxHotelRating)
  {
    (if MinNights <= numNights <= MaxNights then [] else [NumNights])
    + (match preferredHotelRating
       case None => []
       case Some(v) => if MinHotelRating <= v <= MaxHotelRating then [] else [PreferredHotelRating])
  }

  /**
   * The planner's clock wraps at midnight: an activity of `d` minutes that
   * starts at `start` passes the end-time check exactly when it does not run
   * past midnight.
   */
  lemma WrappedEndValidates(start: Minute, d: int)
    requires 0 <= d < MinutesPerDay
    ensures ValidateEndTime(Some(start), AddTime(start, d)).Ok? <==> start + d < MinutesPerDay
  {
    if start + d >= MinutesPerDay {
      assert AddTime(start, d) == start + d - MinutesPerDay;
    }
  }

  /**
   * The end date `start + num_days - 1` that `create_itinerary` computes
   * passes the end-date check exactly when there is at least one day.
   */
  lemma PlannedEndDateValidates(startDate: int, numDays: int)
    ensures ValidateEndDate(Some(startDate), startDate + numDays - 1).Ok? <==> numDays >= 1
  {
  }
}
