/**
 * `get_median_value_from_list`: the median of a list of durations, taken
 * from a sorted copy of the list.
 */
module Median {
  import opened PyText

  predicate Sorted(s: seq<real>) {
    forall i, j :: 0 <= i < j < |s| ==> s[i] <= s[j]
  }

  /** Places `x` in front of the first element of `s` that is not smaller. */
  function Insert(x: real, s: seq<real>): (r: seq<real>)
    ensures |r| == |s| + 1
  {
    if s == [] || x <= s[0] then [x] + s else [s[0]] + Insert(x, s[1..])
  }

  /** `sorted(list_values)`: insertion of each element into the sorted rest. */
  function SortAsc(s: seq<real>): (r: seq<real>)
    ensures |r| == |s|
  {
    if s == [] then [] else Insert(s[0], SortAsc(s[1..]))
  }

  /** Inserting adds exactly `x` to the elements. */
  lemma {:induction false} InsertElements(x: real, s: seq<real>)
    ensures multiset(Insert(x, s)) == multiset(s) + multiset{x}
  {
    if s != [] && x > s[0] {
      assert s == [s[0]] + s[1..];
      InsertElements(x, s[1..]);
    }
  }

  /** Inserting into a sorted sequence keeps it sorted. */
  lemma {:induction false} InsertSorted(x: real, s: seq<real>)
    requires Sorted(s)
    ensures Sorted(Insert(x, s))
  {
    if s != [] && x > s[0] {
      var tail := Insert(x, s[1..]);
      InsertSorted(x, s[1..]);
      InsertElements(x, s[1..]);
      assert Insert(x, s) == [s[0]] + tail;
      forall k | 0 <= k < |tail| ensures s[0] <= tail[k] {
        assert tail[k] in multiset(tail);
        if tail[k] != x {
          assert tail[k] in multiset(s[1..]);
        }
      }
    }
  }

  /** `sorted` returns an ascending permutation of its input. */
  lemma {:induction false} SortAscSorted(s: seq<real>)
    ensures Sorted(SortAsc(s))
    ensures multiset(SortAsc(s)) == multiset(s)
  {
    if s != [] {
      SortAscSorted(s[1..]);
      InsertSorted(s[0], SortAsc(s[1..]));
      InsertElements(s[0], SortAsc(s[1..]));
      assert s == [s[0]] + s[1..];
    }
  }

  /** The median exactly as the source computes it on the sorted copy. */
  function Median(values: seq<real>): (r: Option<real>)
  {
    if !(|values| > 0) then None
    else
      var sorted := SortAsc(values);
      var length := |sorted|;
      var center := length / 2;
      if length == 1 then Some(sorted[0])
      else if length % 2 == 0 then Some((sorted[center - 1] + sorted[center]) / 2.0)
      else Some(sorted[center])
  }

  /** The median of a sorted arrangement `t`: its middle, or the mean of its two middles. */
  function MiddleOf(t: seq<real>): real
    requires |t| > 0
  {
    if |t| % 2 == 1 then t[|t| / 2] else (t[|t| / 2 - 1] + t[|t| / 2]) / 2.0
  }

  lemma SortedHeadIsMinimum(t: seq<real>, x: real)
    requires Sorted(t) && x in multiset(t)
    ensures t[0] <= x
  {
    var k :| 0 <= k < |t| && t[k] == x;
  }

  /** A sorted sequence is determined by its multiset of elements. */
  lemma {:induction false} SortedUnique(a: seq<real>, b: seq<real>)
    requires Sorted(a) && Sorted(b)
    requires multiset(a) == multiset(b)
    ensures a == b
  {
    if a != [] {
      assert a[0] in multiset(b) by { assert a[0] in multiset(a); }
      assert b != [];
      assert b[0] in multiset(a) by { assert b[0] in multiset(b); }
      SortedHeadIsMinimum(b, a[0]);
      SortedHeadIsMinimum(a, b[0]);
      assert a[0] == b[0];
      assert a == [a[0]] + a[1..];
      assert b == [b[0]] + b[1..];
      calc {
        multiset(a[1..]);
        multiset(a) - multiset{a[0]};
        multiset(b) - multiset{b[0]};
        multiset(b[1..]);
      }
      SortedUnique(a[1..], b[1..]);
    } else {
      assert |multiset(b)| == 0;
    }
  }

  /**
   * The median of a non-empty list is the middle of ANY sorted arrangement
   * of it; `None` exactly for the empty list.
   */
  lemma MedianOfSortedArrangement(values: seq<real>, t: seq<real>)
    requires Sorted(t) && multiset(t) == multiset(values)
    ensures |values| == 0 <==> Median(values) == None
    ensures |values| > 0 ==> |t| == |values| && Median(values) == Some(MiddleOf(t))
  {
    SortAscSorted(values);
    SortedUnique(SortAsc(values), t);
    assert |t| == |multiset(t)| == |multiset(values)| == |values|;
  }

  /** Reordering the input never changes the median. */
  lemma MedianIgnoresOrder(a: seq<real>, b: seq<real>)
    requires multiset(a) == multiset(b)
    ensures Median(a) == Median(b)
  {
    SortAscSorted(b);
    MedianOfSortedArrangement(a, SortAsc(b));
    MedianOfSortedArrangement(b, SortAsc(b));
  }

  /** The median lies between the least and the greatest value of the list. */
  lemma MedianWithinRange(values: seq<real>)
    requires |values| > 0
    ensures exists i :: 0 <= i < |values| && values[i] <= Median(values).value
    ensures exists j :: 0 <= j < |values| && Median(values).value <= values[j]
  {
    var t := SortAsc(values);
    SortAscSorted(values);
    var lo, hi := (|t| - 1) / 2, |t| / 2;
    assert t[lo] <= Median(values).value <= t[hi];
    ElementOfSorted(values, t, lo);
    ElementOfSorted(values, t, hi);
  }

  /** Every element of a rearrangement occurs in the original list. */
  lemma ElementOfSorted(values: seq<real>, t: seq<real>, k: nat)
    requires multiset(t) == multiset(values) && k < |t|
    ensures exists i :: 0 <= i < |values| && values[i] == t[k]
  {
    assert t[k] in multiset(t);
    assert t[k] in values;
  }

  lemma MedianOfNoneAndOne()
    ensures Median([]) == None
    ensures Median([1.1]) == Some(1.1)
  {
  }

  lemma MedianOfTwo()
    ensures Median([1.1, 10.0]) == Some(5.55)
  {
    MedianOfSortedArrangement([1.1, 10.0], [1.1, 10.0]);
  }

  lemma MedianOfThree()
    ensures Median([17.0, 1.1, 8.0]) == Some(8.0)
  {
    var t := [1.1, 8.0, 17.0];
    assert multiset(t) == multiset([17.0, 1.1, 8.0]);
    MedianOfSortedArrangement([17.0, 1.1, 8.0], t);
  }

  /** An element above every element of `s` is inserted at the end. */
  lemma {:induction false} InsertLargest(x: real, s: seq<real>)
    requires forall k :: 0 <= k < |s| ==> s[k] < x
    ensures Insert(x, s) == s + [x]
  {
    if s != [] {
      InsertLargest(x, s[1..]);
      assert s == [s[0]] + s[1..];
    }
  }

  /** Sorting `[x] + s` inserts `x` into the sorted `s`. */
  lemma SortAscCons(x: real, s: seq<real>, r: seq<real>)
    requires SortAsc(s) == r
    ensures SortAsc([x] + s) == Insert(x, r)
  {
    assert ([x] + s)[1..] == s;
  }

  lemma MedianOfSeven(values: seq<real>)
    requires values == [6.0, 5.0, 4.0, 3.0, 2.0, 1.0, 0.0]
    ensures Median(values) == Some(3.0)
  {
    var up: seq<real> := [];
    var down: seq<real> := [];
    var n := 0;
    while n < 7
      invariant 0 <= n <= 7
      invariant |up| == |down| == n
      invariant forall k :: 0 <= k < n ==> up[k] == k as real && down[k] == (n - 1 - k) as real
      invariant SortAsc(down) == up
    {
      SortAscCons(n as real, down, up);
      InsertLargest(n as real, up);
      up, down := up + [n as real], [n as real] + down;
      n := n + 1;
    }
    assert down == values;
    assert up[3] == 3.0;
  }
}
