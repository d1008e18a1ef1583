/**
 * `get_limit_report`: the records sorted by `time_sum`, largest first,
 * with Python's stable `sorted(..., reverse=True)`, cut to the first
 * `report_size` of them with a slice.
 */
module TopReport {
  import opened PyText
  import opened Aggregation

  /** Non-increasing in `time_sum`. */
  predicate Descending(s: seq<UrlStat>) {
    forall i, j :: 0 <= i < j < |s| ==> s[i].timeSum >= s[j].timeSum
  }

  /** The records of `s` whose `time_sum` is `v`, in their order in `s`. */
  function WithTime(s: seq<UrlStat>, v: real): (r: seq<UrlStat>)
    ensures |r| <= |s|
  {
    if s == [] then []
    else (if s[0].timeSum == v then [s[0]] else []) + WithTime(s[1..], v)
  }

  /**
   * Places `x` after every record of the descending `s` whose time is not
   * smaller, so that it follows the records with an equal time.
   */
  function InsertDesc(x: UrlStat, s: seq<UrlStat>): (r: seq<UrlStat>)
    ensures |r| == |s| + 1
  {
    if s == [] || x.timeSum > s[0].timeSum then [x] + s else [s[0]] + InsertDesc(x, s[1..])
  }

  /** `sorted(s, key=lambda x: x['time_sum'], reverse=True)`. */
  function SortDesc(s: seq<UrlStat>): (r: seq<UrlStat>)
    ensures |r| == |s|
  {
    if s == [] then [] else InsertDesc(s[|s| - 1], SortDesc(s[..|s| - 1]))
  }

  /** How many elements `s[:n]` keeps of a list of `length` elements. */
  function SliceLength(length: nat, n: int): (k: nat)
    ensures k <= length
    ensures 0 <= n ==> k == if n < length then n else length
    ensures n < 0 ==> k == if length + n > 0 then length + n else 0
  {
    if n >= 0 then (if n < length then n else length)
    else if length + n > 0 then length + n
    else 0
  }

  /** `s[:n]`, with a negative `n` counting from the end. */
  function Prefix(s: seq<UrlStat>, n: int): seq<UrlStat>
  {
    s[..SliceLength(|s|, n)]
  }

  /**
   * `get_limit_report(urls_statistics, report_size)`: `None` for `None`
   * or an empty list, otherwise the first `report_size` records of the
   * stable descending sort.
   */
  function LimitReport(stats: Option<seq<UrlStat>>, reportSize: int): Option<seq<UrlStat>>
  {
    if stats.None? || stats.value == [] then None
    else Some(Prefix(SortDesc(stats.value), reportSize))
  }

  // ---------------------------------------------------------------------
  // The sort.

  lemma {:induction false} WithTimeAppend(a: seq<UrlStat>, b: seq<UrlStat>, v: real)
    ensures WithTime(a + b, v) == WithTime(a, v) + WithTime(b, v)
  {
    if a != [] {
      assert (a + b)[0] == a[0] && (a + b)[1..] == a[1..] + b;
      WithTimeAppend(a[1..], b, v);
    } else {
      assert a + b == b;
    }
  }

  /** A list whose times are all below `v` has no record with time `v`. */
  lemma {:induction false} WithTimeNone(s: seq<UrlStat>, v: real)
    requires forall i :: 0 <= i < |s| ==> s[i].timeSum < v
    ensures WithTime(s, v) == []
  {
    if s != [] {
      WithTimeNone(s[1..], v);
    }
  }

  /** Inserting adds exactly `x`. */
  lemma {:induction false} InsertDescElements(x: UrlStat, s: seq<UrlStat>)
    ensures multiset(InsertDesc(x, s)) == multiset(s) + multiset{x}
  {
    if s != [] && x.timeSum <= s[0].timeSum {
      InsertDescElements(x, s[1..]);
      assert s == [s[0]] + s[1..];
    }
  }

  /** Inserting into a descending list keeps it descending. */
  lemma {:induction false} InsertDescSorted(x: UrlStat, s: seq<UrlStat>)
    requires Descending(s)
    ensures Descending(InsertDesc(x, s))
  {
    if s != [] && x.timeSum <= s[0].timeSum {
      var tail := InsertDesc(x, s[1..]);
      InsertDescSorted(x, s[1..]);
      InsertDescElements(x, s[1..]);
      assert InsertDesc(x, s) == [s[0]] + tail;
      forall k | 0 <= k < |tail| ensures s[0].timeSum >= tail[k].timeSum {
        assert tail[k] in multiset(tail);
        if tail[k] != x {
          assert tail[k] in multiset(s[1..]);
          var j :| 0 <= j < |s[1..]| && s[1..][j] == tail[k];
          assert s[j + 1] == tail[k];
        }
      }
    }
  }

  /** Inserting into a descending list puts `x` after the records with its time. */
  lemma {:induction false} InsertDescStable(x: UrlStat, s: seq<UrlStat>, v: real)
    requires Descending(s)
    ensures WithTime(InsertDesc(x, s), v) == WithTime(s, v) + (if x.timeSum == v then [x] else [])
  {
    if s == [] {
      assert InsertDesc(x, s) == [x];
      assert [x][1..] == [];
    } else if x.timeSum > s[0].timeSum {
      assert InsertDesc(x, s) == [x] + s;
      assert ([x] + s)[0] == x && ([x] + s)[1..] == s;
      if x.timeSum == v {
        WithTimeNone(s, v);
        assert WithTime(s, v) + [x] == [x];
      } else {
        assert WithTime(s, v) + [] == WithTime(s, v);
      }
    } else {
      var tail := InsertDesc(x, s[1..]);
      InsertDescStable(x, s[1..], v);
      assert InsertDesc(x, s) == [s[0]] + tail;
      assert ([s[0]] + tail)[0] == s[0] && ([s[0]] + tail)[1..] == tail;
      var h := if s[0].timeSum == v then [s[0]] else [];
      assert WithTime(s, v) == h + WithTime(s[1..], v);
      assert WithTime(InsertDesc(x, s), v) == h + WithTime(tail, v);
    }
  }

  /**
   * The sort returns a descending permutation of its input that keeps the
   * input order among records with the same time: Python's stable sort.
   */
  lemma SortDescSpec(s: seq<UrlStat>)
    ensures Descending(SortDesc(s))
    ensures multiset(SortDesc(s)) == multiset(s)
    ensures forall v :: WithTime(SortDesc(s), v) == WithTime(s, v)
  {
    SortDescDescending(s);
    SortDescElements(s);
    forall v ensures WithTime(SortDesc(s), v) == WithTime(s, v) {
      SortDescStable(s, v);
    }
  }

  lemma {:induction false} SortDescDescending(s: seq<UrlStat>)
    ensures Descending(SortDesc(s))
  {
    if s != [] {
      SortDescDescending(s[..|s| - 1]);
      InsertDescSorted(s[|s| - 1], SortDesc(s[..|s| - 1]));
    }
  }

  lemma {:induction false} SortDescElements(s: seq<UrlStat>)
    ensures multiset(SortDesc(s)) == multiset(s)
  {
    if s != [] {
      var init, x := s[..|s| - 1], s[|s| - 1];
      assert s == init + [x];
      SortDescElements(init);
      InsertDescElements(x, SortDesc(init));
    }
  }

  lemma {:induction false} SortDescStable(s: seq<UrlStat>, v: real)
    ensures WithTime(SortDesc(s), v) == WithTime(s, v)
  {
    if s != [] {
      var init, x := s[..|s| - 1], s[|s| - 1];
      assert s == init + [x];
      SortDescDescending(init);
      SortDescStable(init, v);
      InsertDescStable(x, SortDesc(init), v);
      WithTimeAppend(init, [x], v);
      assert WithTime([x], v) == (if x.timeSum == v then [x] else []) + WithTime([], v);
    }
  }

  /** A descending, stable permutation is the one the sort returns. */
  lemma {:induction false} SortDescUnique(s: seq<UrlStat>, t: seq<UrlStat>)
    requires Descending(t) && multiset(t) == multiset(s)
    requires forall v :: WithTime(t, v) == WithTime(s, v)
    ensures t == SortDesc(s)
  {
    SortDescSpec(s);
    DescendingStableUnique(t, SortDesc(s));
  }

  /** Two descending lists with the same records of every time are equal. */
  lemma {:induction false} DescendingStableUnique(a: seq<UrlStat>, b: seq<UrlStat>)
    requires Descending(a) && Descending(b)
    requires forall v :: WithTime(a, v) == WithTime(b, v)
    ensures a == b
    decreases |a| + |b|
  {
    if a != [] && b != [] {
      var v := if a[0].timeSum >= b[0].timeSum then a[0].timeSum else b[0].timeSum;
      if a[0].timeSum != b[0].timeSum {
        // The larger head time is missing from the other list.
        if a[0].timeSum > b[0].timeSum {
          assert WithTime(a, v) != [] by { assert WithTime(a, v)[0] == a[0]; }
          WithTimeNone(b, v);
        } else {
          assert WithTime(b, v) != [] by { assert WithTime(b, v)[0] == b[0]; }
          WithTimeNone(a, v);
        }
        assert false;
      }
      assert a[0] == b[0] by {
        assert WithTime(a, v)[0] == a[0];
        assert WithTime(b, v)[0] == b[0];
      }
      forall w ensures WithTime(a[1..], w) == WithTime(b[1..], w) {
        var h := if a[0].timeSum == w then [a[0]] else [];
        assert WithTime(a, w) == h + WithTime(a[1..], w);
        assert WithTime(b, w) == h + WithTime(b[1..], w);
        assert WithTime(a[1..], w) == WithTime(a, w)[|h|..];
        assert WithTime(b[1..], w) == WithTime(b, w)[|h|..];
      }
      DescendingStableUnique(a[1..], b[1..]);
      assert a == [a[0]] + a[1..];
      assert b == [b[0]] + b[1..];
    } else if a != [] {
      WithTimeHead(a);
      assert false;
    } else if b != [] {
      WithTimeHead(b);
      assert false;
    }
  }

  lemma WithTimeHead(s: seq<UrlStat>)
    requires s != []
    ensures WithTime(s, s[0].timeSum) != []
  {
    assert WithTime(s, s[0].timeSum)[0] == s[0];
  }

  // ---------------------------------------------------------------------
  // The report.

  /**
   * `get_limit_report` returns `None` exactly for `None` or an empty list.
   * Otherwise it keeps `report_size` records (all of them when the size
   * is at least the length, counting from the end when it is negative),
   * in non-increasing order of time; they are the records with the
   * largest times, every one drawn from the input; and among records of
   * one time it keeps the first ones in input order.
   */
  lemma LimitReportSpec(stats: Option<seq<UrlStat>>, reportSize: int)
    ensures LimitReport(stats, reportSize).None? <==> stats.None? || stats.value == []
    ensures LimitReport(stats, reportSize).Some? ==>
      var s, r := stats.value, LimitReport(stats, reportSize).value;
      && |r| == SliceLength(|s|, reportSize)
      && Descending(r)
      && multiset(r) <= multiset(s)
      && (forall x: UrlStat, y: UrlStat :: x in r && y in multiset(s) - multiset(r) ==> y.timeSum <= x.timeSum)
      && (forall v :: WithTime(r, v) <= WithTime(s, v))
  {
    if stats.Some? && stats.value != [] {
      var s := stats.value;
      var sorted := SortDesc(s);
      var k := SliceLength(|s|, reportSize);
      assert LimitReport(stats, reportSize).value == sorted[..k];
      SortDescSpec(s);
      PrefixTop(sorted, k);
      forall v ensures WithTime(sorted[..k], v) <= WithTime(s, v) {
        PrefixWithTime(sorted, k, v);
      }
    }
  }

  /**
   * A prefix of a descending list is descending, drawn from the list, and
   * holds the records with the largest times.
   */
  lemma PrefixTop(sorted: seq<UrlStat>, k: nat)
    requires Descending(sorted) && k <= |sorted|
    ensures Descending(sorted[..k])
    ensures multiset(sorted[..k]) <= multiset(sorted)
    ensures forall x: UrlStat, y: UrlStat :: x in sorted[..k] && y in multiset(sorted) - multiset(sorted[..k]) ==> y.timeSum <= x.timeSum
  {
    var r, rest := sorted[..k], sorted[k..];
    assert multiset(sorted) == multiset(r) + multiset(rest) by {
      assert sorted == r + rest;
    }
    forall x: UrlStat, y: UrlStat | x in r && y in multiset(sorted) - multiset(r) ensures y.timeSum <= x.timeSum {
      assert y in multiset(rest);
      PrefixAbove(sorted, k, x, y);
    }
  }

  /** In a descending list, a record before position `k` has a time at least that of one after it. */
  lemma PrefixAbove(sorted: seq<UrlStat>, k: nat, x: UrlStat, y: UrlStat)
    requires Descending(sorted) && k <= |sorted|
    requires x in sorted[..k] && y in sorted[k..]
    ensures y.timeSum <= x.timeSum
  {
    var i :| 0 <= i < k && sorted[..k][i] == x;
    var j :| 0 <= j < |sorted| - k && sorted[k..][j] == y;
    assert sorted[i] == x && sorted[k + j] == y;
  }

  /** The records of one time in a prefix come first among those of the whole list. */
  lemma PrefixWithTime(s: seq<UrlStat>, k: nat, v: real)
    requires k <= |s|
    ensures WithTime(s[..k], v) <= WithTime(s, v)
  {
    assert s == s[..k] + s[k..];
    WithTimeAppend(s[..k], s[k..], v);
  }

  lemma LimitReportOfNone()
    ensures LimitReport(None, 1) == None
    ensures LimitReport(Some([]), 1) == None
  {
  }

  /** A record with only its URL and its time set. */
  function Row(url: string, timeSum: real): UrlStat {
    UrlStat(url, 0, 0.0, timeSum, 0.0, 0.0, 0.0, 0.0)
  }

  lemma LimitReportOfTwo()
    ensures LimitReport(Some([Row("/index.html", 15.0), Row("/index.html", 25.0)]), 1)
         == Some([Row("/index.html", 25.0)])
  {
    var a, b := Row("/index.html", 15.0), Row("/index.html", 25.0);
    assert [a, b][..1] == [a];
    assert SortDesc([a]) == [a];
    assert SortDesc([a, b]) == [b, a];
  }

  lemma LimitReportLongerThanList()
    ensures LimitReport(Some([Row("", 10.0)]), 10) == Some([Row("", 10.0)])
  {
    assert SortDesc([Row("", 10.0)]) == [Row("", 10.0)];
  }

  /** Records with equal times keep their input order, and a negative size drops from the end. */
  lemma LimitReportTies()
    ensures LimitReport(Some([Row("/a", 5.0), Row("/b", 7.0), Row("/c", 5.0)]), -1)
         == Some([Row("/b", 7.0), Row("/a", 5.0)])
  {
    var a, b, c := Row("/a", 5.0), Row("/b", 7.0), Row("/c", 5.0);
    assert [a, b, c][..2] == [a, b] && [a, b][..1] == [a];
    assert SortDesc([a]) == [a];
    assert SortDesc([a, b]) == [b, a];
    assert [b, a][1..] == [a];
    assert InsertDesc(c, [a]) == [a, c];
    assert InsertDesc(c, [b, a]) == [b, a, c];
    assert SortDesc([a, b, c]) == [b, a, c];
    assert [b, a, c][..2] == [b, a];
  }
}
