/**
 * A stable sort by a key comparison, as Python's `sorted(..., key=...)` and
 * `list.sort(key=...)` perform it: the result is ordered by the key and
 * elements whose keys tie keep their input order.
 *
 * The comparison `le(a, b)` means "the key of a is at most the key of b".
 */
module StableSort {

  /** `le` is total and transitive, as a comparison of keys is. */
  ghost predicate TotalPreorder<T(!new)>(le: (T, T) -> bool) {
    && (forall a, b :: le(a, b) || le(b, a))
    && (forall a, b, c :: le(a, b) && le(b, c) ==> le(a, c))
  }

  predicate Sorted<T>(s: seq<T>, le: (T, T) -> bool) {
    forall i, j :: 0 <= i < j < |s| ==> le(s[i], s[j])
  }

  /** The elements of `s` whose key ties with that of `e`, in their order in `s`. */
  function Tied<T>(s: seq<T>, e: T, le: (T, T) -> bool): seq<T> {
    if s == [] then []
    else (if le(s[0], e) && le(e, s[0]) then [s[0]] else []) + Tied(s[1..], e, le)
  }

  /** Places `x` before the first element whose key is not below its own. */
  function Insert<T>(x: T, s: seq<T>, le: (T, T) -> bool): seq<T> {
    if s == [] || le(x, s[0]) then [x] + s
    else [s[0]] + Insert(x, s[1..], le)
  }

  lemma {:induction false} InsertPermutes<T>(x: T, s: seq<T>, le: (T, T) -> bool)
    ensures multiset(Insert(x, s, le)) == multiset(s) + multiset{x}
  {
    if s != [] && !le(x, s[0]) {
      InsertPermutes(x, s[1..], le);
      assert s == [s[0]] + s[1..];
    }
  }

  lemma {:induction false} InsertSorted<T(!new)>(x: T, s: seq<T>, le: (T, T) -> bool)
    requires TotalPreorder(le) && Sorted(s, le)
    ensures Sorted(Insert(x, s, le), le)
  {
    if s == [] || le(x, s[0]) {
      var r := [x] + s;
      forall i, j | 0 <= i < j < |r| ensures le(r[i], r[j]) {
        if i == 0 && j > 1 {
          assert le(x, s[0]) && le(s[0], s[j - 1]);
        }
      }
    } else {
      var tail := Insert(x, s[1..], le);
      InsertSorted(x, s[1..], le);
      InsertPermutes(x, s[1..], le);
      forall j | 0 <= j < |tail| ensures le(s[0], tail[j]) {
        var y := tail[j];
        assert y in multiset(tail);
        if y != x {
          assert y in multiset(s[1..]);
          var k :| 0 <= k < |s[1..]| && s[1..][k] == y;
          assert s[k + 1] == y;
        }
      }
      var r := [s[0]] + tail;
      forall i, j | 0 <= i < j < |r| ensures le(r[i], r[j]) {
        if i > 0 {
          assert r[i] == tail[i - 1] && r[j] == tail[j - 1];
        }
      }
    }
  }

  /** Two elements that are strictly ordered cannot both tie with a third. */
  lemma TiesAreOrdered<T(!new)>(le: (T, T) -> bool, x: T, y: T, e: T)
    requires TotalPreorder(le) && !le(x, y)
    ensures !(le(x, e) && le(e, x) && le(y, e) && le(e, y))
  {
  }

  lemma {:induction false} InsertStable<T(!new)>(x: T, s: seq<T>, le: (T, T) -> bool, e: T)
    requires TotalPreorder(le)
    ensures Tied(Insert(x, s, le), e, le)
            == (if le(x, e) && le(e, x) then [x] else []) + Tied(s, e, le)
  {
    var own := if le(x, e) && le(e, x) then [x] else [];
    if s == [] || le(x, s[0]) {
      assert ([x] + s)[1..] == s;
    } else {
      var tail := Insert(x, s[1..], le);
      var first := if le(s[0], e) && le(e, s[0]) then [s[0]] else [];
      InsertStable(x, s[1..], le, e);
      TiesAreOrdered(le, x, s[0], e);
      assert first + own == own + first;
      calc {
        Tied(Insert(x, s, le), e, le);
        { assert Insert(x, s, le) == [s[0]] + tail; assert ([s[0]] + tail)[1..] == tail; }
        first + Tied(tail, e, le);
        first + (own + Tied(s[1..], e, le));
        own + (first + Tied(s[1..], e, le));
        own + Tied(s, e, le);
      }
    }
  }

  /** Insertion sort; stable because an element is inserted before its ties. */
  function Sort<T(!new)>(s: seq<T>, le: (T, T) -> bool): (r: seq<T>)
    requires TotalPreorder(le)
    ensures Sorted(r, le)
    ensures multiset(r) == multiset(s)
    ensures forall e :: Tied(r, e, le) == Tied(s, e, le)
  {
    if s == [] then []
    else
      var rest := Sort(s[1..], le);
      InsertPermutes(s[0], rest, le);
      InsertSorted(s[0], rest, le);
      assert forall e :: Tied(Insert(s[0], rest, le), e, le) == Tied(s, e, le) by {
        forall e ensures Tied(Insert(s[0], rest, le), e, le) == Tied(s, e, le) {
          InsertStable(s[0], rest, le, e);
        }
      }
      assert s == [s[0]] + s[1..];
      Insert(s[0], rest, le)
  }

  lemma {:induction false} TiedAppend<T>(a: seq<T>, b: seq<T>, e: T, le: (T, T) -> bool)
    ensures Tied(a + b, e, le) == Tied(a, e, le) + Tied(b, e, le)
  {
    if a == [] {
      assert a + b == b;
    } else {
      assert (a + b)[1..] == a[1..] + b;
      TiedAppend(a[1..], b, e, le);
    }
  }

  /** Ties in a prefix of `s` are a prefix of the ties in `s`. */
  lemma TiedPrefix<T>(s: seq<T>, m: nat, e: T, le: (T, T) -> bool)
    requires m <= |s|
    ensures Tied(s[..m], e, le) <= Tied(s, e, le)
  {
    assert s == s[..m] + s[m..];
    TiedAppend(s[..m], s[m..], e, le);
  }
}
