/** Records shared by the planner, the clusterer and the hotel search. */
module Common {

  datatype Option<+T> = None | Some(value: T)

  /** The outcome of an operation that raises in the program. */
  datatype Result<+T, +E> = Ok(value: T) | Err(error: E)

  /** A point given by latitude and longitude in degrees. */
  datatype Coord = Coord(lat: real, lon: real)

  /** Visit length assumed when an attraction record carries none. */
  const DefaultVisitMinutes: int := 120

  /**
   * An attraction record as the planner reads it. `visitMinutes` is absent
   * when the record has no `visit_duration_minutes` entry.
   */
  datatype Attraction = Attraction(
    id: int,
    name: string,
    description: string,
    location: Coord,
    rating: real,
    mustVisit: bool,
    visitMinutes: Option<int>)
  {
    /** The visit length the scheduler uses for this attraction. */
    function VisitLength(): int
    {
      match visitMinutes
      case Some(m) => m
      case None => DefaultVisitMinutes
    }
  }
}
