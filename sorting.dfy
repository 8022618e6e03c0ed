/**
 * `Array.prototype.sort` with a comparator, as the engine uses it on copies of
 * pit-stop lists, lap-time samples and a lap's timings. JavaScript's sort is
 * stable; the insertion sort below keeps equal elements in input order too.
 */
module Sorting {
  import opened Text

  /** `le` is total and transitive: a comparator that sorts consistently. */
  ghost predicate TotalPreorder<T(!new)>(le: (T, T) -> bool)
  {
    && (forall x, y :: le(x, y) || le(y, x))
    && (forall x, y, z :: le(x, y) && le(y, z) ==> le(x, z))
  }

  predicate SortedBy<T>(s: seq<T>, le: (T, T) -> bool)
  {
    forall i, j :: 0 <= i < j < |s| ==> le(s[i], s[j])
  }

  /** Places `x` in front of the first element it does not follow. */
  function Insert<T>(x: T, s: seq<T>, le: (T, T) -> bool): (r: seq<T>)
    ensures |r| == |s| + 1
    ensures multiset(r) == multiset(s) + multiset{x}
  {
    if s == [] then [x]
    else if le(x, s[0]) then [x] + s
    else
      assert s == [s[0]] + s[1..];
      [s[0]] + Insert(x, s[1..], le)
  }

  /** A lower bound of `x` and of every element of `rest` bounds every element of a permutation of both. */
  lemma BoundCarries<T>(h: T, x: T, rest: seq<T>, tail: seq<T>, le: (T, T) -> bool)
    requires le(h, x)
    requires forall m :: 0 <= m < |rest| ==> le(h, rest[m])
    requires multiset(tail) == multiset(rest) + multiset{x}
    ensures forall k :: 0 <= k < |tail| ==> le(h, tail[k])
  {
    forall k | 0 <= k < |tail| ensures le(h, tail[k]) {
      assert tail[k] in multiset(tail);
      if tail[k] != x {
        assert tail[k] in multiset(rest);
        var m :| 0 <= m < |rest| && rest[m] == tail[k];
      }
    }
  }

  /** Inserting into a sorted sequence keeps it sorted. */
  lemma {:induction false} InsertSorted<T(!new)>(x: T, s: seq<T>, le: (T, T) -> bool)
    requires TotalPreorder(le) && SortedBy(s, le)
    ensures SortedBy(Insert(x, s, le), le)
  {
    if s != [] && !le(x, s[0]) {
      var tail := Insert(x, s[1..], le);
      assert s == [s[0]] + s[1..];
      assert SortedBy(s[1..], le);
      InsertSorted(x, s[1..], le);
      BoundCarries(s[0], x, s[1..], tail, le);
      assert Insert(x, s, le) == [s[0]] + tail;
    } else if s != [] {
      assert Insert(x, s, le) == [x] + s;
      assert forall k :: 0 <= k < |s| ==> le(x, s[k]) by {
        forall k | 0 <= k < |s| ensures le(x, s[k]) {
          assert le(s[0], s[k]) || k == 0;
        }
      }
    }
  }

  /** A stable sort of `s` under `le`. */
  function SortBy<T>(s: seq<T>, le: (T, T) -> bool): (r: seq<T>)
    ensures |r| == |s|
    ensures multiset(r) == multiset(s)
  {
    if s == [] then []
    else
      assert s == [s[0]] + s[1..];
      Insert(s[0], SortBy(s[1..], le), le)
  }

  /** Under a consistent comparator the result of SortBy is sorted. */
  lemma {:induction false} SortBySorted<T(!new)>(s: seq<T>, le: (T, T) -> bool)
    requires TotalPreorder(le)
    ensures SortedBy(SortBy(s, le), le)
  {
    if s != [] {
      SortBySorted(s[1..], le);
      InsertSorted(s[0], SortBy(s[1..], le), le);
    }
  }

  /** The elements `le` ranks equal to `k`: those it orders both ways against `k`. */
  function SameKey<T>(le: (T, T) -> bool, k: T): (same: T -> bool)
  {
    y => le(k, y) && le(y, k)
  }

  /** Two elements ranked equal to the same `k` are ranked equal to each other. */
  lemma SameKeyOrdered<T(!new)>(le: (T, T) -> bool, k: T, x: T, y: T)
    requires TotalPreorder(le) && SameKey(le, k)(x) && SameKey(le, k)(y)
    ensures le(x, y)
  {
    assert le(x, k) && le(k, y);
  }

  /**
   * When `x` and `h` are not both kept, putting `h` in front of both sides
   * keeps `x` where it was among the kept elements.
   */
  lemma FilterPastOther<T(!new)>(keep: T -> bool, x: T, h: T, a: seq<T>, b: seq<T>)
    requires !(keep(x) && keep(h))
    requires Filter(a, keep) == (if keep(x) then [x] else []) + Filter(b, keep)
    ensures Filter([h] + a, keep) == (if keep(x) then [x] else []) + Filter([h] + b, keep)
  {
    FilterCons(h, a, keep);
    FilterCons(h, b, keep);
  }

  /**
   * Inserting `x` puts it in front of every element of its own key class
   * and leaves the order of each class as it was.
   */
  lemma {:induction false} InsertStable<T(!new)>(x: T, s: seq<T>, le: (T, T) -> bool, k: T)
    requires SameKey(le, k)(x) ==> forall y :: y in s && SameKey(le, k)(y) ==> le(x, y)
    ensures Filter(Insert(x, s, le), SameKey(le, k)) ==
              (if SameKey(le, k)(x) then [x] else []) + Filter(s, SameKey(le, k))
  {
    var same := SameKey(le, k);
    if s == [] {
      assert Insert(x, s, le) == [x] + [];
      FilterCons(x, [], same);
    } else if le(x, s[0]) {
      assert Insert(x, s, le) == [x] + s;
      FilterCons(x, s, same);
    } else {
      var tail := Insert(x, s[1..], le);
      assert Insert(x, s, le) == [s[0]] + tail;
      assert s == [s[0]] + s[1..];
      assert forall y :: y in s[1..] ==> y in s;
      InsertStable(x, s[1..], le, k);
      assert s[0] in s;
      FilterPastOther(same, x, s[0], tail, s[1..]);
    }
  }

  /**
   * SortBy is stable: the elements ranked equal to any `k` come out in the
   * order they went in.
   */
  lemma {:induction false} SortByStable<T(!new)>(s: seq<T>, le: (T, T) -> bool, k: T)
    requires TotalPreorder(le)
    ensures Filter(SortBy(s, le), SameKey(le, k)) == Filter(s, SameKey(le, k))
  {
    if s != [] {
      SortByStable(s[1..], le, k);
      var sorted := SortBy(s[1..], le);
      forall y | y in sorted && SameKey(le, k)(s[0]) && SameKey(le, k)(y)
        ensures le(s[0], y)
      {
        SameKeyOrdered(le, k, s[0], y);
      }
      InsertStable(s[0], sorted, le, k);
    }
  }

  /** The numeric comparator `(a, b) => a - b` on lap-time samples. */
  function RealLe(a: real, b: real): bool { a <= b }

  lemma RealLeIsTotalPreorder()
    ensures TotalPreorder(RealLe)
  {
  }

  /** A sorted copy of a sample of reals, ascending. */
  function SortReals(s: seq<real>): (r: seq<real>)
    ensures |r| == |s| && multiset(r) == multiset(s)
    ensures forall i, j :: 0 <= i <= j < |r| ==> r[i] <= r[j]
  {
    RealLeIsTotalPreorder();
    SortBySorted(s, RealLe);
    SortBy(s, RealLe)
  }
}
