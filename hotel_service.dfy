/**
 * The nearby-hotel search of app/services/hotel_service.py
 * (`get_hotels_near_point`) once the destination's hotels are fetched: keep
 * the hotels within the distance limit, sort them by distance (stably) and
 * return the first `limit`.
 *
 * The fetched rows are an input sequence, in the order the query returns
 * them; the great-circle distance is a parameter `dist`.
 */
module HotelService {
  import opened Common
  import StableSort

  datatype Hotel = Hotel(
    id: int,
    name: string,
    destinationId: int,
    location: Coord,
    rating: real,
    pricePerNight: real)

  /** A returned entry: the hotel's fields plus its `distance_km`. */
  datatype NearHotel = NearHotel(hotel: Hotel, distanceKm: real)

  const DefaultMaxDistanceKm: real := 5.0
  const DefaultLimit: int := 5

  /** The fetched hotels within `maxKm` of `point`, in fetch order, each with its distance. */
  function InRange(dist: (Coord, Coord) -> real, point: Coord, hotels: seq<Hotel>, maxKm: real): seq<NearHotel>
    decreases |hotels|
  {
    if hotels == [] then []
    else
      var n := |hotels| - 1;
      var d := dist(point, hotels[n].location);
      InRange(dist, point, hotels[..n], maxKm) + (if d <= maxKm then [NearHotel(hotels[n], d)] else [])
  }

  /**
   * An entry of `InRange` is a fetched hotel within `maxKm` carrying its own
   * distance, and every fetched hotel within `maxKm` has its entry.
   */
  lemma {:induction false} InRangeMembers(dist: (Coord, Coord) -> real, point: Coord, hotels: seq<Hotel>, maxKm: real)
    ensures forall x :: x in InRange(dist, point, hotels, maxKm) <==>
      x.hotel in hotels && x.distanceKm == dist(point, x.hotel.location) && x.distanceKm <= maxKm
    decreases |hotels|
  {
    if hotels != [] {
      var n := |hotels| - 1;
      InRangeMembers(dist, point, hotels[..n], maxKm);
      assert hotels == hotels[..n] + [hotels[n]];
    }
  }

  /** The sort key `h["distance_km"]` of `a` is at most that of `b`. */
  predicate DistanceLe(a: NearHotel, b: NearHotel) {
    a.distanceKm <= b.distanceKm
  }

  lemma DistanceIsTotalPreorder()
    ensures StableSort.TotalPreorder(DistanceLe)
  {
  }

  /** Python's `s[:limit]`: a negative limit drops that many entries from the end. */
  function Take<T>(s: seq<T>, limit: int): (r: seq<T>)
    ensures r <= s
    ensures limit >= 0 ==> |r| == if limit < |s| then limit else |s|
    ensures limit < 0 ==> |r| == if |s| + limit > 0 then |s| + limit else 0
  {
    if limit >= 0 then (if limit < |s| then s[..limit] else s)
    else (if |s| + limit > 0 then s[..|s| + limit] else [])
  }

  /** The hotels within `maxKm` of `point`, nearest first, ties in fetch order. */
  function ByDistance(dist: (Coord, Coord) -> real, point: Coord, hotels: seq<Hotel>, maxKm: real): seq<NearHotel> {
    DistanceIsTotalPreorder();
    StableSort.Sort(InRange(dist, point, hotels, maxKm), DistanceLe)
  }

  /** What `get_hotels_near_point` returns for the fetched `hotels`. */
  function NearHotels(dist: (Coord, Coord) -> real, point: Coord, hotels: seq<Hotel>, maxKm: real, limit: int)
    : seq<NearHotel>
  {
    Take(ByDistance(dist, point, hotels, maxKm), limit)
  }

  /**
   * Every returned entry is a fetched hotel within `maxKm` (inclusive)
   * carrying its computed distance; the entries are nearest first; there are
   * at most `limit` of them, and fewer only when fewer hotels are in range.
   */
  lemma NearHotelsInRange(dist: (Coord, Coord) -> real, point: Coord, hotels: seq<Hotel>, maxKm: real, limit: int)
    ensures var r := NearHotels(dist, point, hotels, maxKm, limit);
      && (forall k :: 0 <= k < |r| ==>
            && r[k].hotel in hotels
            && r[k].distanceKm == dist(point, r[k].hotel.location)
            && r[k].distanceKm <= maxKm)
      && (forall i, j :: 0 <= i < j < |r| ==> r[i].distanceKm <= r[j].distanceKm)
      && (limit >= 0 ==> |r| <= limit)
      && (limit >= 0 ==> |r| == limit || |r| == |InRange(dist, point, hotels, maxKm)|)
  {
    var all := InRange(dist, point, hotels, maxKm);
    var sorted := ByDistance(dist, point, hotels, maxKm);
    var r := NearHotels(dist, point, hotels, maxKm, limit);
    InRangeMembers(dist, point, hotels, maxKm);
    forall k | 0 <= k < |r|
      ensures r[k].hotel in hotels && r[k].distanceKm == dist(point, r[k].hotel.location) && r[k].distanceKm <= maxKm
    {
      assert r[k] == sorted[k];
      assert sorted[k] in multiset(all);
    }
    assert forall i, j :: 0 <= i < j < |r| ==> r[i] == sorted[i] && r[j] == sorted[j];
  }

  /**
   * Truncation drops only the farthest: a fetched hotel in range that is not
   * returned is at least as far as every returned one.
   */
  lemma OmittedAreFarther(dist: (Coord, Coord) -> real, point: Coord, hotels: seq<Hotel>, maxKm: real, limit: int)
    ensures var r := NearHotels(dist, point, hotels, maxKm, limit);
      forall h ::
        (h in hotels && dist(point, h.location) <= maxKm && NearHotel(h, dist(point, h.location)) !in r) ==>
        forall k :: 0 <= k < |r| ==> r[k].distanceKm <= dist(point, h.location)
  {
    var all := InRange(dist, point, hotels, maxKm);
    var sorted := ByDistance(dist, point, hotels, maxKm);
    var r := NearHotels(dist, point, hotels, maxKm, limit);
    InRangeMembers(dist, point, hotels, maxKm);
    forall h | h in hotels && dist(point, h.location) <= maxKm && NearHotel(h, dist(point, h.location)) !in r
      ensures forall k :: 0 <= k < |r| ==> r[k].distanceKm <= dist(point, h.location)
    {
      var x := NearHotel(h, dist(point, h.location));
      assert x in multiset(sorted);
      var i :| 0 <= i < |sorted| && sorted[i] == x;
      assert i >= |r|;
      forall k | 0 <= k < |r| ensures r[k].distanceKm <= x.distanceKm {
        assert r[k] == sorted[k];
      }
    }
  }

  /**
   * The sort is stable: among the returned entries, those at the same
   * distance as `e` come in fetch order, as a prefix of all such entries.
   */
  lemma TiesInFetchOrder(dist: (Coord, Coord) -> real, point: Coord, hotels: seq<Hotel>, maxKm: real, limit: int)
    ensures forall e :: StableSort.Tied(NearHotels(dist, point, hotels, maxKm, limit), e, DistanceLe)
                        <= StableSort.Tied(InRange(dist, point, hotels, maxKm), e, DistanceLe)
  {
    var sorted := ByDistance(dist, point, hotels, maxKm);
    var r := NearHotels(dist, point, hotels, maxKm, limit);
    forall e ensures StableSort.Tied(r, e, DistanceLe) <= StableSort.Tied(InRange(dist, point, hotels, maxKm), e, DistanceLe) {
      StableSort.TiedPrefix(sorted, |r|, e, DistanceLe);
      assert sorted[..|r|] == r;
    }
  }

  /**
   * The post-fetch part of `get_hotels_near_point`: one pass over the fetched
   * hotels collecting those in range, then the sort and the slice.
   */
  method GetHotelsNearPoint(
    dist: (Coord, Coord) -> real, point: Coord, hotels: seq<Hotel>, maxKm: real, limit: int)
    returns (result: seq<NearHotel>)
    ensures result == NearHotels(dist, point, hotels, maxKm, limit)
  {
    var withDistance: seq<NearHotel> := [];
    var i := 0;
    while i < |hotels|
      invariant 0 <= i <= |hotels|
      invariant withDistance == InRange(dist, point, hotels[..i], maxKm)
    {
      var distance := dist(point, hotels[i].location);
      if distance <= maxKm {
        withDistance := withDistance + [NearHotel(hotels[i], distance)];
      }
      i := i + 1;
      assert hotels[..i][..i - 1] == hotels[..i - 1];
    }
    assert hotels[..i] == hotels;
    DistanceIsTotalPreorder();
    withDistance := StableSort.Sort(withDistance, DistanceLe);
    result := Take(withDistance, limit);
  }

  /** With the default arguments: at most five hotels, none farther than 5 km. */
  lemma DefaultsBound(dist: (Coord, Coord) -> real, point: Coord, hotels: seq<Hotel>)
    ensures var r := NearHotels(dist, point, hotels, DefaultMaxDistanceKm, DefaultLimit);
      |r| <= 5 && forall k :: 0 <= k < |r| ==> r[k].distanceKm <= 5.0
  {
    NearHotelsInRange(dist, point, hotels, DefaultMaxDistanceKm, DefaultLimit);
  }
}
