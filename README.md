# Itinerary planning core of travelio-mcp, in Dafny

This project models the part of travelio-mcp that turns attraction records
into a multi-day itinerary, and proves properties of that model. It covers
four pieces:

- **The day scheduler** (`_create_day_activities`). It makes one greedy pass
  over a day's attractions and threads a clock through each activity in turn:
  - breakfast at the hotel;
  - an optional lunch;
  - a transfer before every attraction but the first;
  - the visit itself;
  - an optional dinner;
  - a closing block of free time.

  It stops at the first attraction whose visit would end after the day end.
- **The itinerary assembler** (`create_itinerary`). It pads the cluster map
  when there are fewer clusters than days, dates each day from the start date,
  sorts each day's attractions by priority and schedules them.
- **Attraction grouping** (`cluster_attractions`, `find_central_point`). It
  clamps the cluster count, buckets attractions by their k-means label and
  computes the centre of a set of attractions.
- **Nearby-hotel selection and the itinerary schema checks.** The hotel
  search (`get_hotels_near_point` after the rows are fetched) keeps the hotels
  within a distance, sorts them by distance and truncates the list. The schema
  checks are the ordering and range validators of `app/api/schemas/itinerary.py`.

How the model represents the source:

- Times of day are whole minutes in `[0, 1440)`. Adding minutes wraps at
  midnight, as `datetime.time` does once the date is dropped.
- Dates are integer day numbers.
- The settings object becomes an explicit `DayPlanner.Config`, whose default
  is `DayPlanner.DefaultConfig`.
- Distances are given by a parameter function `dist`.
- Python's stable `sorted`/`list.sort` is `StableSort.Sort`. It is specified
  as sorted, a permutation of its input, and order-preserving among equal keys.

Modules, one file each:

- `common.dfy`: `Common`, the shared records.
- `planner_time.dfy`: `PlannerTime`, the clock helpers.
- `planner_day.dfy`: `DayPlanner`, the day scheduler.
- `planner_itinerary.dfy`: `ItineraryPlanner`, the itinerary assembler.
- `stable_sort.dfy`: `StableSort`.
- `clustering.dfy`: `Clustering`.
- `hotel_service.dfy`: `HotelService`.
- `itinerary_schemas.dfy`: `ItinerarySchemas`.

The loops of the source are methods:

- `DayPlanner.CreateDayActivities`
- `ItineraryPlanner.PadClusters`
- `ItineraryPlanner.CreateItinerary`
- `Clustering.ClusterAttractions`
- `HotelService.GetHotelsNearPoint`

Four of them are proved equal to a specification function, and the
properties are proved about those functions. `ItineraryPlanner.CreateItinerary`
is characterised field by field instead: the day count, each day's number,
date and hotel, and each day's plan as `ItineraryPlanner.DayPlan` of its
cluster.

### Behaviour worth noting

- **Empty day.** A day whose cluster is empty or missing gets an empty
  activity list, with no breakfast and no free time: the scheduler is called
  only when the day has attractions (app/core/itinerary_planner.py:77-85).
- **Meal windows.** `_is_time_in_range` includes both ends
  (app/core/itinerary_planner.py:264-266). A clock reading of exactly 14:00
  still gets lunch, and exactly 20:00 still gets dinner.
- **End-of-day test on the wrapped clock.** The visit end is compared with the
  day end on the wrapped clock (app/core/itinerary_planner.py:186). A visit that
  runs past midnight can therefore pass it. Dinner is never checked against the
  day end (app/core/itinerary_planner.py:217-233).
- **Padding of clusters.** As written, the padding loop gives every padded day
  cluster 0 (app/core/itinerary_planner.py:54-58); see "## Findings". The
  assembler `ItineraryPlanner.CreateItinerary` uses the corrected padding
  `ItineraryPlanner.Pad`, whose modulus is the cluster count before the loop.
  `ItineraryPlanner.AsWrittenPaddedDaysPlanFirstCluster` states what the days
  would plan with the padding as written.

## Model

| member | source | states |
|---|---|---|
| PlannerTime.AddTime | app/core/itinerary_planner.py:249-252 | the result is congruent to `t + minutes` modulo one day, and equals it when no midnight is crossed |
| PlannerTime.AddTimeAssociates | app/core/itinerary_planner.py:249-252 | adding `a` then `b` minutes lands on the same time of day as adding `a + b` |
| PlannerTime.CompareTimes | app/core/itinerary_planner.py:254-262 | returns -1, 0 or 1 exactly when the first time is before, equal to or after the second |
| PlannerTime.IsTimeInRange | app/core/itinerary_planner.py:264-266 | holds exactly when `lo <= t <= hi`, both ends included |
| PlannerTime.Trunc | app/core/itinerary_planner.py:299 | Python's `int()` on a float: the integer part, rounded toward zero for either sign |
| PlannerTime.EstimateTravelTime | app/core/itinerary_planner.py:297-302 | the travel time is at least 5 minutes; above that floor it is the whole minutes of `distance / speed * 60` |
| StableSort.Sort | app/core/itinerary_planner.py:79-82 | the result is sorted by the key, is a permutation of the input, and keeps the input order among elements with equal keys |
| DayPlanner.CreateDayActivities | app/core/itinerary_planner.py:91-247 | the loop with its early `break` computes exactly `DayActivities`, the breakfast, loop and free-time specification |
| DayPlanner.RunKeepsInv | app/core/itinerary_planner.py:130-233 | every state the loop reaches satisfies the day invariant: contiguity, meal and transfer rules, visits within the day, and flags equal to what the list holds |
| DayPlanner.MealFlagsMatchScans | app/core/itinerary_planner.py:132-134 | in every reachable state the lunch and dinner flags equal the source's scans for a meal whose title mentions "Lunch" or "Dinner" |
| DayPlanner.BreakfastOpensDay | app/core/itinerary_planner.py:105-120 | a day plan opens with the 60-minute "Breakfast at hotel" meal starting at the configured start hour |
| DayPlanner.ActivitiesAreContiguous | app/core/itinerary_planner.py:120-238 | every activity starts exactly when the previous one ends |
| DayPlanner.MealsAtMostOnce | app/core/itinerary_planner.py:131-233 | at most one lunch and one dinner; lunch starts inside [12:00, 14:00]; dinner directly follows a visit and starts inside [18:00, 20:00]; each lasts its configured length |
| DayPlanner.TransfersLinkVisits | app/core/itinerary_planner.py:150-180 | no transfer comes before the first visit; each transfer lasts at least 5 minutes; every visit but the first comes straight after a transfer |
| DayPlanner.VisitsEndByDayEnd | app/core/itinerary_planner.py:182-188 | every visit ends no later than the day end, compared on the wrapped clock |
| DayPlanner.VisitsFollowPriorityOrder | app/core/itinerary_planner.py:182-214 | the visits are those of the first `n` attractions in the given order, each with its own visit length; if some are left, the next one did not fit and the rest are dropped |
| DayPlanner.FreeTimeClosesDay | app/core/itinerary_planner.py:235-245 | free time is emitted exactly when the loop ends before the day end; it is then the last activity, running to the day end, and nowhere else |
| ItineraryPlanner.SortByPriority | app/core/itinerary_planner.py:77-82 | must-visit attractions come first; ratings do not increase among equal must-visit status; a permutation; ties keep input order |
| ItineraryPlanner.DayPlan | app/core/itinerary_planner.py:76-85 | a day's plan is empty exactly when it has no attractions, and otherwise opens with breakfast |
| ItineraryPlanner.PadCycles | app/core/itinerary_planner.py:53-58 | corrected padding: every missing index `i` in `[len, num_days)` gets cluster `i mod len` and other entries are unchanged; it fails exactly when some `i mod len` is not a key, and divides by zero exactly when there are no clusters and at least one day |
| ItineraryPlanner.PadCyclesContiguous | app/core/itinerary_planner.py:53-58 | corrected padding with keys `0..n-1`, `n > 0`: it succeeds, covers every day index, and day `i` holds cluster `i mod n` |
| ItineraryPlanner.PadAsWrittenCopiesFirst | app/core/itinerary_planner.py:53-58 | the loop as written, with keys `0..n-1`: every padded day holds cluster 0 |
| ItineraryPlanner.PadAsWrittenCounterexample | app/core/itinerary_planner.py:53-58 | two clusters and four days: as written, day index 3 gets cluster 0; the intended 3 mod 2 is cluster 1, and the two clusters differ |
| ItineraryPlanner.AsWrittenPaddedDaysPlanFirstCluster | app/core/itinerary_planner.py:53-85 | with the padding as written and keys `0..n-1`, padding succeeds and every padded day `k > n` plans the attractions of cluster 0 |
| ItineraryPlanner.PadClusters | app/core/itinerary_planner.py:53-58 | the padding loop, with the modulus fixed before the loop, computes `Pad`, whose behaviour `PadCycles` states |
| ItineraryPlanner.CreateItinerary | app/core/itinerary_planner.py:13-89 | padding errors propagate; otherwise there are `max(0, num_days)` days; day `k` is numbered `k`, dated `start + k - 1`, carries the hotel and plans cluster `k - 1` (missing means empty); the end date is `start + num_days - 1`; padding is the corrected `Pad` (modulus fixed before the loop), so with keys `0..n-1`, day `k` plans cluster `(k - 1) mod n` |
| Clustering.ClampClusterCount | app/core/clustering.py:23-25 | the count is left as requested when there are enough attractions, even if it is not positive; otherwise it becomes `len` for a non-empty list and 1 for an empty one; a positive request yields a count in `1..request`, and in `1..len` for a non-empty list |
| Clustering.ClusterAttractions | app/core/clustering.py:34-43 | the bucketing loop computes `Group`, the label-to-attractions map |
| Clustering.GroupsAreLabelFilters | app/core/clustering.py:35-41 | the group keys are exactly the labels that occur; each group is the attractions with that label in input order; no group is empty |
| Clustering.GroupSizesSum | app/core/clustering.py:35-41 | with labels in `[0, k)`, the keys lie in `[0, k)` and the group sizes sum to the number of attractions |
| Clustering.CentralPoint | app/core/clustering.py:55-56 | it fails exactly on an empty list |
| Clustering.CentralPointInBox | app/core/clustering.py:58-65 | the centre (per-coordinate mean) lies in every box that holds all the attractions |
| Clustering.CentralPointOfOnePlace | app/core/clustering.py:58-65 | attractions all at one point, a single one in particular, have that point as their centre |
| HotelService.InRangeMembers | app/services/hotel_service.py:101-130 | an entry of the in-range list is a fetched hotel at most `max_distance_km` away carrying its own distance, and every such hotel has its entry |
| HotelService.Take | app/services/hotel_service.py:134 | `s[:limit]` is a prefix of length `min(limit, len)` for `limit >= 0`, and drops `-limit` entries from the end otherwise |
| HotelService.NearHotelsInRange | app/services/hotel_service.py:101-134 | every returned hotel is a fetched one within the limit (inclusive) with its distance; the list is nearest first; it has at most `limit` entries, fewer only when fewer are in range |
| HotelService.OmittedAreFarther | app/services/hotel_service.py:133-134 | a fetched hotel in range that is not returned is at least as far as every returned one |
| HotelService.TiesInFetchOrder | app/services/hotel_service.py:133 | returned hotels at equal distance keep their fetch order, as a prefix of all such hotels |
| HotelService.GetHotelsNearPoint | app/services/hotel_service.py:101-134 | the collect, sort and slice computes `NearHotels`, whose properties the three lemmas above state |
| HotelService.DefaultsBound | app/services/hotel_service.py:79-80 | with the defaults 5.0 km and 5, at most five hotels are returned, none farther than 5 km |
| ItinerarySchemas.ValidateEndTime | app/api/schemas/itinerary.py:22-26 | rejects exactly when the start time validated and the end is strictly before it; equal times pass |
| ItinerarySchemas.ValidateEndDate | app/api/schemas/itinerary.py:98-102 | rejects exactly when the start date validated and the end date is strictly before it |
| ItinerarySchemas.RequestErrors | app/api/schemas/itinerary.py:134-142 | `num_nights` is flagged exactly when outside 1..14; `preferred_hotel_rating` exactly when present and outside [1.0, 5.0]; no flags exactly when the request is valid |
| ItinerarySchemas.WrappedEndValidates | app/api/schemas/itinerary.py:22-26 | an activity of under a day, timed on the planner's wrapped clock, passes the end-time check exactly when it does not cross midnight |
| ItinerarySchemas.PlannedEndDateValidates | app/core/itinerary_planner.py:37-38 | the end date `create_itinerary` computes passes the end-date check exactly when there is at least one day |

## Left out

- Great-circle distances are not modelled. The Haversine formula
  (`_estimate_travel_time`, `calculate_distance`, `_calculate_distance`) uses
  floating-point trigonometry, so distance is a parameter function `dist`.
  Only the truncation and the 5-minute floor of the travel estimate are
  modelled.
- The k-means call of `cluster_attractions` is a foreign library doing float
  numerics.
- Clustering.ClusterAttractions: takes the labels as an input. It requires a
  non-empty attraction list and labels in `[0, k)`, where `k` is the clamped
  count. The source does not special-case those, so k-means itself would
  raise.
- Date strings are not modelled. `strptime`/`strftime` and the `HH:MM`
  formatting become integer day numbers and minutes, so a malformed start
  date and a date out of `datetime`'s range are not modelled.
- The global settings object (app/core/config.py:26-34) is the `Config`
  parameter. `time(hour, 0)` raises for hours outside 0..23, and the model
  requires valid hours.
- DayPlanner.CreateDayActivities: requires a non-zero travel speed on every
  call. The source divides by the speed only when a transfer is estimated.
- Text fields are not modelled: activity descriptions, `travel_mode`, and the
  itinerary's generated title and description. They are fixed or formatted
  strings that no property depends on.
- Attraction records are typed: a visit length or rating stored as an
  explicit `None` (a `TypeError` in the source) is not modelled. Only an
  absent visit length, which defaults to 120 minutes, is modelled.
- ItineraryPlanner.CreateItinerary: pads with the corrected padding
  `ItineraryPlanner.Pad`, not the loop as written, so with fewer clusters than
  days its padded days cycle through the clusters. The loop as written gives
  them all cluster 0; `ItineraryPlanner.AsWrittenPaddedDaysPlanFirstCluster`
  states that behaviour.
- Update in place is modelled on values. `create_itinerary` updates the
  caller's cluster map. ItineraryPlanner.CreateItinerary instead returns the
  padded map. When padding raises, it returns the map unchanged, not the
  partly padded one.
- The sorts are modelled on values. `list.sort` sorts the hotel list in place
  (app/services/hotel_service.py:133), and `sorted` returns a new list
  (app/core/itinerary_planner.py:79-82). Both are the specification function
  `StableSort.Sort`, an insertion sort rather than Timsort. A stable sort is
  determined by being sorted, a permutation and stable, so the results agree.
- Floating-point rounding is not modelled. Ratings, coordinates, distances
  and means are exact reals.
- The database fetch in `get_hotels_near_point` is not modelled: the fetched
  rows are an input sequence. Hotel fields no property reads (address, image,
  amenities, facility flags) are dropped.
- Pydantic's type coercion and the unconstrained `ItineraryRequest` fields
  are not modelled.
- The database and service layers, the MCP server, the HTTP and language
  model clients, the chatbot and the scripts are not part of this model.
- Attraction opening hours are not modelled: the scheduler never reads them.

## Findings

| source | as written | input that shows it | evidently intended | confidence | as-written member | corrected member |
|---|---|---|---|---|---|---|
| app/core/itinerary_planner.py:54-58 | `cluster_idx = i % len(clustered_attractions)` re-reads the length after each insertion. With keys `0..n-1`, the map holds exactly `i` entries at index `i`, so `i % i == 0` and every padded day copies cluster 0 | clusters `{0: [], 1: [x]}` and `num_days = 4`: day index 3 gets cluster 0 (empty) instead of cluster 1 | padded day `i` reuses cluster `i mod n`, with `n` the cluster count before padding, cycling through the clusters | high; not executed | ItineraryPlanner.PadAsWrittenCounterexample | ItineraryPlanner.PadCyclesContiguous |

`ItineraryPlanner.PadAsWritten` models the loop as written, and
`ItineraryPlanner.PadAsWrittenCopiesFirst` states its general effect.
`ItineraryPlanner.CreateItinerary` pads through `ItineraryPlanner.PadClusters`.
That method takes the modulus before the loop, and `ItineraryPlanner.PadCycles`
states what it computes.
