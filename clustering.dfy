/**
 * The attraction grouping of app/core/clustering.py: the cluster count
 * handed to k-means, the bucketing of attractions by their k-means label, and
 * the central point of a set of attractions.
 *
 * The labels k-means assigns are an input here: one label in `[0, k)` per
 * attraction, in attraction order.
 */
module Clustering {
  import opened Common

  type Groups = map<int, seq<Attraction>>

  /**
   * The cluster count actually used for `n` attractions when `requested`
   * clusters are asked for: lowered to `max(1, n)` when there are fewer
   * attractions than requested clusters, otherwise left as requested, even
   * when that is not positive.
   */
  function ClampClusterCount(n: nat, requested: int): (k: int)
    ensures requested <= n ==> k == requested
    ensures requested >= 1 ==> 1 <= k <= requested
    ensures requested >= 1 && n >= 1 ==> k <= n
    ensures 1 <= n < requested ==> k == n
    ensures n < requested && n == 0 ==> k == 1
  {
    if n < requested then (if n >= 1 then n else 1) else requested
  }

  /** What the bucketing loop has built after the attractions of `atts`. */
  function Group(atts: seq<Attraction>, labels: seq<int>): Groups
    requires |labels| == |atts|
    decreases |atts|
  {
    if atts == [] then map[]
    else
      var n := |atts| - 1;
      var g := Group(atts[..n], labels[..n]);
      var l := labels[n];
      g[l := (if l in g then g[l] else []) + [atts[n]]]
  }

  /** The attractions labelled `l`, in input order. */
  function Members(atts: seq<Attraction>, labels: seq<int>, l: int): seq<Attraction>
    requires |labels| == |atts|
    decreases |atts|
  {
    if atts == [] then []
    else
      var n := |atts| - 1;
      Members(atts[..n], labels[..n], l) + (if labels[n] == l then [atts[n]] else [])
  }

  /**
   * The group keys are exactly the labels that occur, and the group of label
   * `l` is the attractions labelled `l` in input order; so no group is empty.
   */
  lemma {:induction false} GroupsAreLabelFilters(atts: seq<Attraction>, labels: seq<int>)
    requires |labels| == |atts|
    ensures forall l :: l in Group(atts, labels) <==> l in labels
    ensures forall l ::
      Members(atts, labels, l) == (if l in Group(atts, labels) then Group(atts, labels)[l] else [])
    ensures forall l :: l in Group(atts, labels) ==> |Group(atts, labels)[l]| > 0
    decreases |atts|
  {
    if atts != [] {
      var n := |atts| - 1;
      var g := Group(atts[..n], labels[..n]);
      GroupsAreLabelFilters(atts[..n], labels[..n]);
      assert labels == labels[..n] + [labels[n]];
      forall l ensures l in labels <==> l in labels[..n] || l == labels[n] {
        if l in labels {
          var i :| 0 <= i < |labels| && labels[i] == l;
          if i < n {
            assert labels[..n][i] == l;
          }
        }
      }
    }
  }

  /** Total size of the groups with labels `0 .. k-1`. */
  function SizeBelow(g: Groups, k: int): nat
    decreases if k < 0 then 0 else k
  {
    if k <= 0 then 0
    else SizeBelow(g, k - 1) + (if k - 1 in g then |g[k - 1]| else 0)
  }

  lemma {:induction false} SizeBelowEmpty(k: int)
    ensures SizeBelow(map[], k) == 0
    decreases if k < 0 then 0 else k
  {
    if k > 0 {
      SizeBelowEmpty(k - 1);
    }
  }

  lemma {:induction false} SizeBelowAdd(g: Groups, l: int, x: Attraction, k: int)
    requires 0 <= l
    ensures SizeBelow(g[l := (if l in g then g[l] else []) + [x]], k)
            == SizeBelow(g, k) + (if l < k then 1 else 0)
    decreases if k < 0 then 0 else k
  {
    if k > 0 {
      SizeBelowAdd(g, l, x, k - 1);
    }
  }

  /** With labels in `[0, k)`, every attraction lands in one group: the group sizes sum to the input length. */
  lemma {:induction false} GroupSizesSum(atts: seq<Attraction>, labels: seq<int>, k: int)
    requires |labels| == |atts|
    requires forall i :: 0 <= i < |labels| ==> 0 <= labels[i] < k
    ensures SizeBelow(Group(atts, labels), k) == |atts|
    ensures forall l :: l in Group(atts, labels) ==> 0 <= l < k
    decreases |atts|
  {
    if atts == [] {
      SizeBelowEmpty(k);
    } else {
      var n := |atts| - 1;
      GroupSizesSum(atts[..n], labels[..n], k);
      SizeBelowAdd(Group(atts[..n], labels[..n]), labels[n], atts[n], k);
    }
  }

  /**
   * The bucketing loop of `cluster_attractions`, given the label k-means
   * assigned to each attraction. k-means is run with `ClampClusterCount`
   * clusters, so the labels are below that count.
   */
  method ClusterAttractions(attractions: seq<Attraction>, numClusters: int, labels: seq<int>)
    returns (clustered: Groups)
    requires |attractions| > 0 && |labels| == |attractions|
    requires forall i :: 0 <= i < |labels| ==> 0 <= labels[i] < ClampClusterCount(|attractions|, numClusters)
    ensures clustered == Group(attractions, labels)
  {
    clustered := map[];
    var i := 0;
    while i < |labels|
      invariant 0 <= i <= |labels|
      invariant clustered == Group(attractions[..i], labels[..i])
    {
      var clusterId := labels[i];
      if clusterId !in clustered {
        clustered := clustered[clusterId := []];
      }
      clustered := clustered[clusterId := clustered[clusterId] + [attractions[i]]];
      i := i + 1;
      assert attractions[..i][..i - 1] == attractions[..i - 1];
      assert labels[..i][..i - 1] == labels[..i - 1];
    }
    assert attractions[..i] == attractions && labels[..i] == labels;
  }

  // ----- The central point -----

  function Sum(xs: seq<real>): real
    decreases |xs|
  {
    if xs == [] then 0.0 else Sum(xs[..|xs| - 1]) + xs[|xs| - 1]
  }

  function Lats(atts: seq<Attraction>): (r: seq<real>)
    ensures |r| == |atts|
  {
    seq(|atts|, i requires 0 <= i < |atts| => atts[i].location.lat)
  }

  function Lons(atts: seq<Attraction>): (r: seq<real>)
    ensures |r| == |atts|
  {
    seq(|atts|, i requires 0 <= i < |atts| => atts[i].location.lon)
  }

  /** `find_central_point`: the per-coordinate mean, or an error for no attractions. */
  function CentralPoint(atts: seq<Attraction>): (r: Result<Coord, string>)
    ensures r.Err? <==> atts == []
  {
    if atts == [] then Err("Cannot find central point for empty attraction list")
    else Ok(Coord(Sum(Lats(atts)) / |atts| as real, Sum(Lons(atts)) / |atts| as real))
  }

  /** A sum of `|xs|` values between `lo` and `hi` lies between `|xs|·lo` and `|xs|·hi`. */
  lemma {:induction false} SumBetween(xs: seq<real>, lo: real, hi: real)
    requires forall i :: 0 <= i < |xs| ==> lo <= xs[i] <= hi
    ensures |xs| as real * lo <= Sum(xs) <= |xs| as real * hi
    decreases |xs|
  {
    if xs != [] {
      var m := |xs| - 1;
      var p := xs[..m];
      assert forall i :: 0 <= i < |p| ==> p[i] == xs[i];
      SumBetween(p, lo, hi);
      assert |xs| as real * lo == m as real * lo + lo;
      assert |xs| as real * hi == m as real * hi + hi;
    }
  }

  lemma MeanBetween(sum: real, n: real, lo: real, hi: real)
    requires n > 0.0 && n * lo <= sum <= n * hi
    ensures lo <= sum / n <= hi
  {
    assert sum / n * n == sum;
  }

  /** The mean of values between `lo` and `hi` lies between them. */
  lemma MeanOfBounded(xs: seq<real>, lo: real, hi: real)
    requires xs != []
    requires forall i :: 0 <= i < |xs| ==> lo <= xs[i] <= hi
    ensures lo <= Sum(xs) / |xs| as real <= hi
  {
    SumBetween(xs, lo, hi);
    MeanBetween(Sum(xs), |xs| as real, lo, hi);
  }

  /**
   * The central point lies in every box that holds all the attractions; in
   * particular attractions that all stand at one point (a single attraction,
   * say) have that point as their centre.
   */
  lemma CentralPointInBox(atts: seq<Attraction>, lo: Coord, hi: Coord)
    requires atts != []
    requires forall i :: 0 <= i < |atts| ==>
      lo.lat <= atts[i].location.lat <= hi.lat && lo.lon <= atts[i].location.lon <= hi.lon
    ensures lo.lat <= CentralPoint(atts).value.lat <= hi.lat
    ensures lo.lon <= CentralPoint(atts).value.lon <= hi.lon
  {
    var lats, lons := Lats(atts), Lons(atts);
    assert forall i :: 0 <= i < |atts| ==> lats[i] == atts[i].location.lat && lons[i] == atts[i].location.lon;
    MeanOfBounded(lats, lo.lat, hi.lat);
    MeanOfBounded(lons, lo.lon, hi.lon);
  }

  lemma CentralPointOfOnePlace(atts: seq<Attraction>, p: Coord)
    requires atts != []
    requires forall i :: 0 <= i < |atts| ==> atts[i].location == p
    ensures CentralPoint(atts) == Ok(p)
  {
    CentralPointInBox(atts, p, p);
  }
}
