/**
 * The body of `get_statistics_logs` once the log file is open: a loop over
 * its lines that counts them, counts the ones the parser rejects and
 * collects the durations of every URL in a dictionary that keeps the
 * order in which URLs first appear; then a loop over that dictionary that
 * builds one record per URL, and the percentage of rejected lines.
 */
module Aggregation {
  import opened PyText
  import LineParser
  import Duration
  import Median

  /** The exceptions a line can raise out of the loop. */
  datatype PyError = IndexError | ValueError

  /** A call that either raises or returns. */
  datatype Outcome<T> = Raised(error: PyError) | Returned(value: T)

  /** What the scan loop does with one line. */
  datatype Entry = Broken | Hit(url: string, time: real) | Crash(error: PyError)

  /**
   * One line of the file: stripped on the right, parsed, and its time
   * converted with `float`.
   */
  function Classify(line: string): (e: Entry)
    ensures e.Broken? <==> LineParser.ParseLine(RStrip(line)).NoMatch?
    ensures e == Crash(IndexError) <==> LineParser.ParseLine(RStrip(line)).IndexErrorRaised?
    ensures e.Hit? ==> ' ' !in e.url && e.time >= 0.0
  {
    match LineParser.ParseLine(RStrip(line))
    case NoMatch => Broken
    case IndexErrorRaised => Crash(IndexError)
    case Parsed(url, time) =>
      match Duration.ToFloat(time)
      case None => Crash(ValueError)
      case Some(v) => Hit(url, v)
  }

  // ---------------------------------------------------------------------
  // The scan loop, as a fold over the lines.

  /**
   * The loop's variables: `count_log_string`, `count_error_string`,
   * `time_sum`, and `urls_time_request` as its keys in insertion order
   * plus the map from key to list.
   */
  datatype Tally = Tally(lines: nat, errors: nat, timeSum: real, urls: seq<string>, times: map<string, seq<real>>)

  const Start := Tally(0, 0, 0.0, [], map[])

  /** One turn of the loop. */
  function Step(t: Tally, e: Entry): Outcome<Tally>
  {
    match e
    case Broken => Returned(t.(lines := t.lines + 1, errors := t.errors + 1))
    case Crash(error) => Raised(error)
    case Hit(url, v) =>
      // `if not urls_time_request.get(url): urls_time_request[url] = []`
      var list := if url !in t.times || t.times[url] == [] then [] else t.times[url];
      var urls := if url in t.times then t.urls else t.urls + [url];
      Returned(Tally(t.lines + 1, t.errors, t.timeSum + v, urls, t.times[url := list + [v]]))
  }

  /** The fate of each line, in file order. */
  function Entries(lines: seq<string>): (es: seq<Entry>)
    ensures |es| == |lines|
  {
    if lines == [] then [] else Entries(lines[..|lines| - 1]) + [Classify(lines[|lines| - 1])]
  }

  /** The loop run over the fates of the lines. */
  function Scan(es: seq<Entry>): Outcome<Tally>
  {
    if es == [] then Returned(Start)
    else
      match Scan(es[..|es| - 1])
      case Raised(error) => Raised(error)
      case Returned(t) => Step(t, es[|es| - 1])
  }

  // ---------------------------------------------------------------------
  // What the scan computes, defined entry by entry.

  predicate NoCrash(es: seq<Entry>) {
    forall i :: 0 <= i < |es| ==> !es[i].Crash?
  }

  /** The number of lines the parser rejects. */
  function BrokenCount(es: seq<Entry>): (n: nat)
    ensures n <= |es|
  {
    if es == [] then 0
    else BrokenCount(es[..|es| - 1]) + if es[|es| - 1].Broken? then 1 else 0
  }

  /** The durations of the lines for `url`, in file order. */
  function TimesOf(es: seq<Entry>, url: string): seq<real>
  {
    if es == [] then []
    else
      var e := es[|es| - 1];
      var init := TimesOf(es[..|es| - 1], url);
      if e.Hit? && e.url == url then init + [e.time] else init
  }

  /** The URLs of the parsed lines, each once, in order of first appearance. */
  function FirstSeen(es: seq<Entry>): seq<string>
  {
    if es == [] then []
    else
      var e := es[|es| - 1];
      var init := FirstSeen(es[..|es| - 1]);
      if e.Hit? && e.url !in init then init + [e.url] else init
  }

  /** The sum of the durations of all parsed lines. */
  function HitTime(es: seq<Entry>): real
  {
    if es == [] then 0.0
    else
      var e := es[|es| - 1];
      HitTime(es[..|es| - 1]) + if e.Hit? then e.time else 0.0
  }

  predicate Distinct(s: seq<string>) {
    forall i, j :: 0 <= i < j < |s| ==> s[i] != s[j]
  }

  /** `sum(list)`, adding from the left. */
  function Sum(s: seq<real>): real
  {
    if s == [] then 0.0 else Sum(s[..|s| - 1]) + s[|s| - 1]
  }

  /** The total length of the lists of `keys`. */
  function CountTotal(keys: seq<string>, times: map<string, seq<real>>): nat
    requires forall k :: k in keys ==> k in times
  {
    if keys == [] then 0 else CountTotal(keys[..|keys| - 1], times) + |times[keys[|keys| - 1]]|
  }

  /** The sum of all durations in the lists of `keys`. */
  function TimeTotal(keys: seq<string>, times: map<string, seq<real>>): real
    requires forall k :: k in keys ==> k in times
  {
    if keys == [] then 0.0 else TimeTotal(keys[..|keys| - 1], times) + Sum(times[keys[|keys| - 1]])
  }

  /**
   * What holds of the loop's variables between turns: the keys are the
   * map's domain, each once; no list is empty; the lines that parsed are
   * as many as the durations in all lists, and `time_sum` is their sum.
   */
  ghost predicate Consistent(t: Tally) {
    && (forall u :: u in t.times <==> u in t.urls)
    && Distinct(t.urls)
    && (forall u :: u in t.times ==> t.times[u] != [])
    && t.errors <= t.lines
    && t.lines - t.errors == CountTotal(t.urls, t.times)
    && t.timeSum == TimeTotal(t.urls, t.times)
  }

  lemma {:induction false} FirstSeenIff(es: seq<Entry>, url: string)
    ensures url in FirstSeen(es) <==> TimesOf(es, url) != []
  {
    if es != [] {
      FirstSeenIff(es[..|es| - 1], url);
    }
  }

  lemma {:induction false} FirstSeenDistinct(es: seq<Entry>)
    ensures Distinct(FirstSeen(es))
  {
    if es != [] {
      FirstSeenDistinct(es[..|es| - 1]);
    }
  }

  /** Extending a list that `keys` holds once adds one to the count and `v` to the time. */
  lemma {:induction false} TotalsAppend(keys: seq<string>, times: map<string, seq<real>>, url: string, v: real)
    requires forall k :: k in keys ==> k in times
    requires Distinct(keys) && url in keys
    ensures var times' := times[url := times[url] + [v]];
            && CountTotal(keys, times') == CountTotal(keys, times) + 1
            && TimeTotal(keys, times') == TimeTotal(keys, times) + v
  {
    var times' := times[url := times[url] + [v]];
    var init := keys[..|keys| - 1];
    var last := keys[|keys| - 1];
    assert Sum(times[url] + [v]) == Sum(times[url]) + v by {
      assert (times[url] + [v])[..|times[url]|] == times[url];
    }
    if last == url {
      assert url !in init;
      TotalsUnchanged(init, times, times');
    } else {
      assert url in init;
      TotalsAppend(init, times, url, v);
    }
  }

  /** Totals depend only on the lists of `keys`. */
  lemma {:induction false} TotalsUnchanged(keys: seq<string>, times: map<string, seq<real>>, times': map<string, seq<real>>)
    requires forall k :: k in keys ==> k in times && k in times' && times[k] == times'[k]
    ensures CountTotal(keys, times) == CountTotal(keys, times')
    ensures TimeTotal(keys, times) == TimeTotal(keys, times')
  {
    if keys != [] {
      TotalsUnchanged(keys[..|keys| - 1], times, times');
    }
  }

  lemma DistinctAppend(s: seq<string>, x: string)
    requires Distinct(s) && x !in s
    ensures Distinct(s + [x])
  {
    forall i, j | 0 <= i < j < |s + [x]| ensures (s + [x])[i] != (s + [x])[j] {
      if j < |s| { assert (s + [x])[i] == s[i] && (s + [x])[j] == s[j]; }
      else { assert (s + [x])[i] == s[i]; }
    }
  }

  /** The loop's variables `t` after the lines `es`, as the line-by-line definitions say. */
  ghost predicate Reflects(es: seq<Entry>, t: Tally) {
    && t.lines == |es|
    && t.errors == BrokenCount(es)
    && t.timeSum == HitTime(es)
    && t.urls == FirstSeen(es)
    && (forall u :: u in t.times ==> t.times[u] == TimesOf(es, u))
    && Consistent(t)
  }

  /** A parsed line for a URL already in the dictionary appends to its list and keeps the variables consistent. */
  lemma StepKnownConsistent(t: Tally, url: string, v: real)
    requires Consistent(t) && url in t.times
    ensures var t' := Tally(t.lines + 1, t.errors, t.timeSum + v, t.urls, t.times[url := t.times[url] + [v]]);
            Step(t, Hit(url, v)) == Returned(t') && Consistent(t')
  {
    TotalsAppend(t.urls, t.times, url, v);
  }

  /** Adding a key with its list adds the list's length and sum to the totals. */
  lemma TotalsExtend(keys: seq<string>, times: map<string, seq<real>>, url: string, list: seq<real>)
    requires forall k :: k in keys ==> k in times
    requires url !in keys
    ensures var times' := times[url := list];
            && CountTotal(keys + [url], times') == CountTotal(keys, times) + |list|
            && TimeTotal(keys + [url], times') == TimeTotal(keys, times) + Sum(list)
  {
    var times' := times[url := list];
    TotalsUnchanged(keys, times, times');
    assert (keys + [url])[..|keys|] == keys;
  }

  /** A parsed line for a new URL adds it with a one-element list and keeps the variables consistent. */
  lemma StepNewConsistent(t: Tally, url: string, v: real)
    requires Consistent(t) && url !in t.times
    ensures var t' := Tally(t.lines + 1, t.errors, t.timeSum + v, t.urls + [url], t.times[url := [v]]);
            Step(t, Hit(url, v)) == Returned(t') && Consistent(t')
  {
    TotalsExtend(t.urls, t.times, url, [v]);
    DistinctAppend(t.urls, url);
    assert Sum([v]) == v by { assert [v][..0] == []; }
    assert [] + [v] == [v];
  }

  /** A parsed line updates the variables as the line-by-line definitions do. */
  lemma StepHit(es: seq<Entry>, t: Tally, url: string, v: real)
    requires |es| > 0 && es[|es| - 1] == Hit(url, v) && Reflects(es[..|es| - 1], t)
    ensures Step(t, Hit(url, v)).Returned? && Reflects(es, Step(t, Hit(url, v)).value)
  {
    var init := es[..|es| - 1];
    FirstSeenIff(init, url);
    if url in t.times {
      StepKnownConsistent(t, url, v);
      assert t.times[url] == TimesOf(init, url);
      StepHitTimes(es, t, url, v, t.urls, t.times[url := t.times[url] + [v]]);
    } else {
      StepNewConsistent(t, url, v);
      assert TimesOf(init, url) + [v] == [v];
      StepHitTimes(es, t, url, v, t.urls + [url], t.times[url := [v]]);
    }
  }

  lemma StepHitTimes(es: seq<Entry>, t: Tally, url: string, v: real, urls: seq<string>, times: map<string, seq<real>>)
    requires |es| > 0 && es[|es| - 1] == Hit(url, v) && Reflects(es[..|es| - 1], t)
    requires Step(t, Hit(url, v)) == Returned(Tally(t.lines + 1, t.errors, t.timeSum + v, urls, times))
    requires Consistent(Tally(t.lines + 1, t.errors, t.timeSum + v, urls, times))
    requires urls == if url in t.urls then t.urls else t.urls + [url]
    requires times == t.times[url := TimesOf(es[..|es| - 1], url) + [v]]
    ensures Reflects(es, Step(t, Hit(url, v)).value)
  {
    var init := es[..|es| - 1];
    assert BrokenCount(es) == BrokenCount(init);
    assert HitTime(es) == HitTime(init) + v;
    assert FirstSeen(es) == if url in FirstSeen(init) then FirstSeen(init) else FirstSeen(init) + [url];
    forall u | u in times ensures TimesOf(es, u) == times[u] {
      TimesOfLast(es, u);
    }
  }

  lemma TimesOfLast(es: seq<Entry>, u: string)
    requires |es| > 0 && es[|es| - 1].Hit?
    ensures TimesOf(es, u) ==
      if es[|es| - 1].url == u then TimesOf(es[..|es| - 1], u) + [es[|es| - 1].time] else TimesOf(es[..|es| - 1], u)
  {
  }

  /**
   * The scan raises exactly when some line raises, and then with the
   * error of the first such line.
   */
  lemma {:induction false} ScanRaises(es: seq<Entry>)
    ensures Scan(es).Returned? <==> NoCrash(es)
    ensures Scan(es).Raised? ==>
      exists i :: 0 <= i < |es| && es[i] == Crash(Scan(es).error) && NoCrash(es[..i])
  {
    if es != [] {
      var init := es[..|es| - 1];
      ScanRaises(init);
      if Scan(init).Raised? {
        var i :| 0 <= i < |init| && init[i] == Crash(Scan(init).error) && NoCrash(init[..i]);
        assert init[..i] == es[..i];
      } else {
        assert es[..|es| - 1] == init;
      }
    }
  }

  /**
   * When the scan returns, it has counted every line and the rejected
   * ones, listed each parsed URL once in order of first appearance with
   * exactly that URL's durations in file order, summed every duration,
   * and left its variables consistent.
   */
  lemma {:induction false} ScanReference(es: seq<Entry>)
    ensures Scan(es).Returned? ==> Reflects(es, Scan(es).value)
  {
    if es != [] {
      var init := es[..|es| - 1];
      ScanReference(init);
      if Scan(init).Returned? {
        var t := Scan(init).value;
        match es[|es| - 1] {
          case Crash(_) =>
          case Broken =>
          case Hit(url, v) =>
            StepHit(es, t, url, v);
        }
      }
    }
  }

  /** The scan of one more entry takes one more turn of the loop. */
  lemma ScanNext(es: seq<Entry>, i: nat)
    requires i < |es|
    ensures Scan(es[..i + 1]) ==
      match Scan(es[..i])
      case Raised(error) => Raised(error)
      case Returned(t) => Step(t, es[i])
  {
    assert es[..i + 1][..i] == es[..i];
  }

  /** Once a prefix of the lines raises, so does the whole scan, with the same error. */
  lemma {:induction false} ScanRaisedStays(es: seq<Entry>, k: nat)
    requires k <= |es| && Scan(es[..k]).Raised?
    ensures Scan(es) == Scan(es[..k])
    decreases |es| - k
  {
    if k < |es| {
      assert es[..k + 1][..k] == es[..k];
      ScanRaisedStays(es, k + 1);
    } else {
      assert es[..k] == es;
    }
  }

  // ---------------------------------------------------------------------
  // The records.

  /** One record of the report. */
  datatype UrlStat = UrlStat(
    url: string,
    count: nat,
    countPerc: real,
    timeSum: real,
    timeMax: real,
    timePerc: real,
    timeAvg: real,
    timeMed: real)

  /** The records and the error rate that `get_statistics_logs` returns. */
  datatype Statistics = Statistics(stats: seq<UrlStat>, errorRate: real)

  /** `max(list)`. */
  function Max(s: seq<real>): (m: real)
    requires |s| > 0
    ensures m in s
    ensures forall x :: x in s ==> x <= m
  {
    if |s| == 1 then
      assert forall x :: x in s ==> x == s[0];
      s[0]
    else
      var init, last := s[..|s| - 1], s[|s| - 1];
      var m := Max(init);
      assert forall x :: x in s ==> x in init || x == last by {
        assert s == init + [last];
      }
      assert m in s by { assert s == init + [last]; }
      if last > m then last else m
  }

  /** `part * 100 / whole`. */
  function Percent(part: real, whole: real): real
    requires whole != 0.0
  {
    part * 100.0 / whole
  }

  /** `time_sum / count`. */
  function Mean(total: real, count: nat): (m: real)
    requires count > 0
    ensures m * count as real == total
  {
    total / count as real
  }

  /** `median if median else 0`: the median of a non-empty list, where 0.0 falls back to 0. */
  function MedianOrZero(value: seq<real>): (m: real)
    requires |value| > 0
    ensures Median.Median(value) == Some(m)
  {
    var median := Median.Median(value);
    if median.Some? && median.value != 0.0 then median.value else 0.0
  }

  /**
   * The record of one URL. `count_sum` is the number of parsed lines and
   * `total` the global `time_sum`, which `time_sum or 1` replaces by 1
   * when it is zero.
   */
  function UrlStatOf(url: string, value: seq<real>, countSum: nat, total: real): (r: UrlStat)
    requires |value| > 0 && countSum > 0
    ensures r.url == url && r.count == |value| >= 1 && r.timeSum == Sum(value)
  {
    var timeSum := Sum(value);
    var timeAvg := Mean(timeSum, |value|);
    UrlStat(
      url,
      |value|,
      Percent(|value| as real, countSum as real),
      timeSum,
      Max(value),
      Percent(timeSum, if total != 0.0 then total else 1.0),
      timeAvg,
      MedianOrZero(value))
  }

  /** The record's `time_max` is one of the URL's durations and none is larger. */
  lemma UrlStatMax(url: string, value: seq<real>, countSum: nat, total: real)
    requires |value| > 0 && countSum > 0
    ensures var r := UrlStatOf(url, value, countSum, total);
            r.timeMax in value && forall x :: x in value ==> x <= r.timeMax
  {
    assert UrlStatOf(url, value, countSum, total).timeMax == Max(value);
  }

  /**
   * The record's mean times its count is its sum, and its median is the
   * median of the URL's durations.
   */
  lemma UrlStatMeanMedian(url: string, value: seq<real>, countSum: nat, total: real)
    requires |value| > 0 && countSum > 0
    ensures var r := UrlStatOf(url, value, countSum, total);
            && r.timeAvg * r.count as real == r.timeSum
            && Median.Median(value) == Some(r.timeMed)
  {
    var r := UrlStatOf(url, value, countSum, total);
    assert r.timeAvg == Mean(r.timeSum, |value|);
  }

  /** `count_error_string * 100 / (count_log_string or 1)`. */
  function ErrorRate(lines: nat, errors: nat): real
  {
    errors as real * 100.0 / (if lines != 0 then lines else 1) as real
  }

  lemma {:induction false} CountTotalPositive(keys: seq<string>, times: map<string, seq<real>>)
    requires forall k :: k in keys ==> k in times && times[k] != []
    ensures CountTotal(keys, times) >= |keys|
  {
    if keys != [] {
      CountTotalPositive(keys[..|keys| - 1], times);
    }
  }

  /**
   * The records of `keys`, in order: the body of the second loop, with
   * `countSum` parsed lines and the global time sum `total`.
   */
  function Records(keys: seq<string>, times: map<string, seq<real>>, countSum: nat, total: real): (rs: seq<UrlStat>)
    requires forall k :: k in keys ==> k in times && times[k] != []
    requires keys != [] ==> countSum > 0
    ensures |rs| == |keys|
  {
    if keys == [] then []
    else
      var key := keys[|keys| - 1];
      Records(keys[..|keys| - 1], times, countSum, total) + [UrlStatOf(key, times[key], countSum, total)]
  }

  /** The records, in the dictionary's order, and the error rate. */
  function Finalise(t: Tally): (s: Statistics)
    requires Consistent(t)
    ensures |s.stats| == |t.urls|
  {
    CountTotalPositive(t.urls, t.times);
    Statistics(Records(t.urls, t.times, t.lines - t.errors, t.timeSum), ErrorRate(t.lines, t.errors))
  }

  /** The report of consistent variables is made of the records of their keys and the error rate. */
  lemma FinaliseParts(t: Tally)
    requires Consistent(t)
    ensures t.lines - t.errors >= |t.urls|
    ensures Finalise(t) == Statistics(Records(t.urls, t.times, t.lines - t.errors, t.timeSum), ErrorRate(t.lines, t.errors))
  {
    CountTotalPositive(t.urls, t.times);
  }

  /** Record `k` is the record of the `k`-th key and its list. */
  lemma {:induction false} RecordAt(keys: seq<string>, times: map<string, seq<real>>, countSum: nat, total: real, k: nat)
    requires forall k :: k in keys ==> k in times && times[k] != []
    requires keys != [] ==> countSum > 0
    requires k < |keys|
    ensures keys[k] in times && times[keys[k]] != [] && countSum > 0
    ensures Records(keys, times, countSum, total)[k] == UrlStatOf(keys[k], times[keys[k]], countSum, total)
  {
    var init := keys[..|keys| - 1];
    if k < |init| {
      assert init[k] == keys[k];
      RecordAt(init, times, countSum, total, k);
    }
  }

  /** The records of one more key are those of the keys before it and its own. */
  lemma RecordsNext(keys: seq<string>, times: map<string, seq<real>>, countSum: nat, total: real, k: nat)
    requires forall k :: k in keys ==> k in times && times[k] != []
    requires keys != [] ==> countSum > 0
    requires k < |keys|
    ensures Records(keys[..k + 1], times, countSum, total)
         == Records(keys[..k], times, countSum, total) + [UrlStatOf(keys[k], times[keys[k]], countSum, total)]
  {
    assert keys[..k + 1][..k] == keys[..k];
  }

  /**
   * Record `k` describes the `k`-th key of the dictionary: the record of
   * that URL and its list, with the parsed lines and the global time sum.
   */
  lemma FinaliseRecord(t: Tally, k: nat)
    requires Consistent(t) && k < |t.urls|
    ensures t.times[t.urls[k]] != [] && t.lines - t.errors > 0
    ensures Finalise(t).stats[k] == UrlStatOf(t.urls[k], t.times[t.urls[k]], t.lines - t.errors, t.timeSum)
  {
    var countSum := t.lines - t.errors;
    assert countSum > 0 && t.times[t.urls[k]] != [] by {
      CountTotalPositive(t.urls, t.times);
    }
    assert Finalise(t).stats == Records(t.urls, t.times, countSum, t.timeSum) by {
      FinaliseParts(t);
    }
    RecordAt(t.urls, t.times, countSum, t.timeSum, k);
  }

  /**
   * The record's share of the lines times the number of parsed lines is
   * 100 times its count; its share of the time times the total (or 1) is
   * 100 times its sum.
   */
  lemma UrlStatShares(url: string, value: seq<real>, countSum: nat, total: real)
    requires |value| > 0 && countSum > 0
    ensures var r := UrlStatOf(url, value, countSum, total);
            && r.countPerc == Percent(r.count as real, countSum as real)
            && r.timePerc == Percent(r.timeSum, if total != 0.0 then total else 1.0)
            && r.countPerc * countSum as real == r.count as real * 100.0
            && r.timePerc * (if total != 0.0 then total else 1.0) == r.timeSum * 100.0
  {
    var r := UrlStatOf(url, value, countSum, total);
    assert r.countPerc == Percent(|value| as real, countSum as real);
    assert r.timePerc == Percent(r.timeSum, if total != 0.0 then total else 1.0);
    PercentTimes(|value| as real, countSum as real);
    PercentTimes(r.timeSum, if total != 0.0 then total else 1.0);
  }

  lemma PercentTimes(part: real, whole: real)
    requires whole != 0.0
    ensures Percent(part, whole) * whole == part * 100.0
  {
  }

  lemma PercentAdd(a: real, b: real, whole: real)
    requires whole != 0.0
    ensures Percent(a, whole) + Percent(b, whole) == Percent(a + b, whole)
  {
    PercentTimes(a, whole);
    PercentTimes(b, whole);
    PercentTimes(a + b, whole);
  }

  /** The shares of the parsed lines, added up record by record. */
  function CountPercSum(stats: seq<UrlStat>): real
  {
    if stats == [] then 0.0 else CountPercSum(stats[..|stats| - 1]) + stats[|stats| - 1].countPerc
  }

  /** The shares of the total time, added up record by record. */
  function TimePercSum(stats: seq<UrlStat>): real
  {
    if stats == [] then 0.0 else TimePercSum(stats[..|stats| - 1]) + stats[|stats| - 1].timePerc
  }

  /** A whole's share of itself is 100 percent. */
  lemma PercentOfWhole(whole: real)
    requires whole != 0.0
    ensures Percent(whole, whole) == 100.0
  {
  }

  /**
   * Records whose shares of the lines are those of the lists of `keys`
   * add up to the share of all those lists' lengths.
   */
  lemma {:induction false} CountPercSumOf(rs: seq<UrlStat>, keys: seq<string>, times: map<string, seq<real>>, countSum: nat)
    requires forall k :: k in keys ==> k in times
    requires countSum > 0 && |rs| == |keys|
    requires forall i :: 0 <= i < |rs| ==> rs[i].countPerc == Percent(|times[keys[i]]| as real, countSum as real)
    ensures CountPercSum(rs) == Percent(CountTotal(keys, times) as real, countSum as real)
  {
    if rs != [] {
      var rsInit, keysInit := rs[..|rs| - 1], keys[..|keys| - 1];
      assert forall i :: 0 <= i < |rsInit| ==> rsInit[i] == rs[i] && keysInit[i] == keys[i];
      CountPercSumOf(rsInit, keysInit, times, countSum);
      PercentAdd(CountTotal(keysInit, times) as real, |times[keys[|keys| - 1]]| as real, countSum as real);
    }
  }

  /**
   * Records whose shares of the time are those of the lists of `keys`
   * add up to the share of the sum of all those lists.
   */
  lemma {:induction false} TimePercSumOf(rs: seq<UrlStat>, keys: seq<string>, times: map<string, seq<real>>, whole: real)
    requires forall k :: k in keys ==> k in times
    requires whole != 0.0 && |rs| == |keys|
    requires forall i :: 0 <= i < |rs| ==> rs[i].timePerc == Percent(Sum(times[keys[i]]), whole)
    ensures TimePercSum(rs) == Percent(TimeTotal(keys, times), whole)
  {
    if rs != [] {
      var rsInit, keysInit := rs[..|rs| - 1], keys[..|keys| - 1];
      assert forall i :: 0 <= i < |rsInit| ==> rsInit[i] == rs[i] && keysInit[i] == keys[i];
      TimePercSumOf(rsInit, keysInit, times, whole);
      PercentAdd(TimeTotal(keysInit, times), Sum(times[keys[|keys| - 1]]), whole);
    }
  }

  /**
   * The shares of the parsed lines that the records of `keys` take add up
   * to the share of all their durations.
   */
  lemma CountPercRecords(keys: seq<string>, times: map<string, seq<real>>, countSum: nat, total: real)
    requires forall k :: k in keys ==> k in times && times[k] != []
    requires countSum > 0
    ensures CountPercSum(Records(keys, times, countSum, total)) == Percent(CountTotal(keys, times) as real, countSum as real)
  {
    var rs := Records(keys, times, countSum, total);
    forall i | 0 <= i < |rs| ensures rs[i].countPerc == Percent(|times[keys[i]]| as real, countSum as real) {
      RecordAt(keys, times, countSum, total, i);
      UrlStatShares(keys[i], times[keys[i]], countSum, total);
    }
    CountPercSumOf(rs, keys, times, countSum);
  }

  /**
   * The shares of the time that the records of `keys` take add up to the
   * share of the sum of all their durations.
   */
  lemma TimePercRecords(keys: seq<string>, times: map<string, seq<real>>, countSum: nat, total: real)
    requires forall k :: k in keys ==> k in times && times[k] != []
    requires countSum > 0
    ensures TimePercSum(Records(keys, times, countSum, total))
         == Percent(TimeTotal(keys, times), if total != 0.0 then total else 1.0)
  {
    var rs := Records(keys, times, countSum, total);
    var whole := if total != 0.0 then total else 1.0;
    forall i | 0 <= i < |rs| ensures rs[i].timePerc == Percent(Sum(times[keys[i]]), whole) {
      RecordAt(keys, times, countSum, total, i);
      UrlStatShares(keys[i], times[keys[i]], countSum, total);
    }
    TimePercSumOf(rs, keys, times, whole);
  }

  /**
   * The shares of the parsed lines add up to 100 whenever some line
   * parsed, and the shares of the time add up to 100 whenever the total
   * time is not zero.
   */
  lemma PercentagesAddUp(t: Tally)
    requires Consistent(t) && 0 < |t.urls|
    ensures CountPercSum(Finalise(t).stats) == 100.0
    ensures t.timeSum != 0.0 ==> TimePercSum(Finalise(t).stats) == 100.0
  {
    CountTotalPositive(t.urls, t.times);
    var countSum: nat := t.lines - t.errors;
    assert Finalise(t).stats == Records(t.urls, t.times, countSum, t.timeSum);
    CountPercRecords(t.urls, t.times, countSum, t.timeSum);
    PercentOfWhole(countSum as real);
    TimePercRecords(t.urls, t.times, countSum, t.timeSum);
    if t.timeSum != 0.0 {
      PercentOfWhole(t.timeSum);
    }
  }

  /** The error rate is a percentage, zero for an empty file and 100 when no line parsed. */
  lemma ErrorRateBounds(lines: nat, errors: nat)
    requires errors <= lines
    ensures 0.0 <= ErrorRate(lines, errors) <= 100.0
    ensures lines == 0 ==> ErrorRate(lines, errors) == 0.0
    ensures 0 < lines == errors ==> ErrorRate(lines, errors) == 100.0
    ensures ErrorRate(lines, errors) * (if lines != 0 then lines else 1) as real == errors as real * 100.0
  {
    var d := (if lines != 0 then lines else 1) as real;
    PercentTimes(errors as real, d);
    assert ErrorRate(lines, errors) == Percent(errors as real, d);
    assert errors as real * 100.0 <= d * 100.0;
  }

  /** `get_statistics_logs` on the lines of an opened file. */
  function Analyze(lines: seq<string>): Outcome<Statistics>
  {
    match Scan(Entries(lines))
    case Raised(error) => Raised(error)
    case Returned(t) =>
      ScanReference(Entries(lines));
      Returned(Finalise(t))
  }

  /** The `i`-th entry is the fate of the `i`-th line. */
  lemma {:induction false} EntriesAt(lines: seq<string>, i: nat)
    requires i < |lines|
    ensures Entries(lines)[i] == Classify(lines[i])
  {
    if i < |lines| - 1 {
      var init := lines[..|lines| - 1];
      EntriesAt(init, i);
      assert init[i] == lines[i];
    }
  }

  /** A scan in which every line is rejected only counts lines. */
  lemma {:induction false} ScanAllBroken(es: seq<Entry>)
    requires forall i :: 0 <= i < |es| ==> es[i] == Broken
    ensures Scan(es) == Returned(Tally(|es|, |es|, 0.0, [], map[]))
  {
    if es != [] {
      ScanAllBroken(es[..|es| - 1]);
    }
  }

  /**
   * A file in which no line parses gives no records and an error rate of
   * 100; an empty file gives an error rate of 0.
   */
  lemma AnalyzeNothingParsed(lines: seq<string>)
    requires forall i :: 0 <= i < |lines| ==> LineParser.ParseLine(RStrip(lines[i])).NoMatch?
    ensures Analyze(lines) == Returned(Statistics([], if lines == [] then 0.0 else 100.0))
  {
    var es := Entries(lines);
    forall i | 0 <= i < |es| ensures es[i] == Broken {
      EntriesAt(lines, i);
    }
    ScanAllBroken(es);
    ErrorRateBounds(|lines|, |lines|);
  }

  /**
   * The statistics of a file against the line-by-line definitions: the
   * function returns exactly when no line raises; then there is one
   * record per parsed URL in order of first appearance, the record of that
   * URL's durations in file order taken with the number of parsed lines
   * and the sum of all durations, and the error rate is the share of the
   * rejected lines.
   */
  lemma AnalyzeReference(lines: seq<string>)
    ensures var es := Entries(lines);
            Analyze(lines).Returned? <==> NoCrash(es)
    ensures var es := Entries(lines);
            Analyze(lines).Returned? ==>
              && |Analyze(lines).value.stats| == |FirstSeen(es)|
              && Analyze(lines).value.errorRate == ErrorRate(|lines|, BrokenCount(es))
              && forall k :: 0 <= k < |FirstSeen(es)| ==>
                   && TimesOf(es, FirstSeen(es)[k]) != [] && |lines| - BrokenCount(es) > 0
                   && Analyze(lines).value.stats[k]
                      == UrlStatOf(FirstSeen(es)[k], TimesOf(es, FirstSeen(es)[k]), |lines| - BrokenCount(es), HitTime(es))
  {
    var es := Entries(lines);
    ScanRaises(es);
    if Scan(es).Returned? {
      var t := Scan(es).value;
      assert Reflects(es, t) by { ScanReference(es); }
      var stats := Finalise(t).stats;
      assert Analyze(lines) == Returned(Finalise(t));
      assert t.urls == FirstSeen(es) && t.lines - t.errors == |lines| - BrokenCount(es) && t.timeSum == HitTime(es);
      forall k | 0 <= k < |FirstSeen(es)|
        ensures TimesOf(es, FirstSeen(es)[k]) != [] && |lines| - BrokenCount(es) > 0
             && stats[k] == UrlStatOf(FirstSeen(es)[k], TimesOf(es, FirstSeen(es)[k]), |lines| - BrokenCount(es), HitTime(es))
      {
        ReflectsKey(es, t, k);
        FinaliseRecord(t, k);
      }
    }
  }

  /** The `k`-th key of the scan's dictionary and its list, in terms of the line-by-line definitions. */
  lemma ReflectsKey(es: seq<Entry>, t: Tally, k: nat)
    requires Reflects(es, t) && k < |t.urls|
    ensures t.urls[k] == FirstSeen(es)[k] && t.urls[k] in t.times && t.times[t.urls[k]] == TimesOf(es, t.urls[k])
    ensures t.lines - t.errors == |es| - BrokenCount(es) && t.timeSum == HitTime(es)
  {
  }

  /**
   * Six lines, three of them rejected and three for `/index.html` taking
   * 5 seconds each: one record with every share at 100, and half the
   * lines in error.
   */
  lemma FinaliseExample()
    ensures var t := Tally(6, 3, 15.0, ["/index.html"], map["/index.html" := [5.0, 5.0, 5.0]]);
            && Consistent(t)
            && Finalise(t) == Statistics([UrlStat("/index.html", 3, 100.0, 15.0, 5.0, 100.0, 5.0, 5.0)], 50.0)
  {
    var t := Tally(6, 3, 15.0, ["/index.html"], map["/index.html" := [5.0, 5.0, 5.0]]);
    ExampleConsistent();
    ExampleRecord();
    FinaliseRecord(t, 0);
    assert Finalise(t).stats == [Finalise(t).stats[0]];
  }

  /** Three durations of 5 seconds sum to 15. */
  lemma ExampleSum()
    ensures Sum([5.0, 5.0, 5.0]) == 15.0
  {
    var value := [5.0, 5.0, 5.0];
    assert value[..2] == [5.0, 5.0] && value[..2][..1] == [5.0] && [5.0][..0] == [];
  }

  lemma ExampleConsistent()
    ensures Consistent(Tally(6, 3, 15.0, ["/index.html"], map["/index.html" := [5.0, 5.0, 5.0]]))
  {
    ExampleSum();
    assert ["/index.html"][..0] == [];
  }

  lemma ExampleRecord()
    ensures UrlStatOf("/index.html", [5.0, 5.0, 5.0], 3, 15.0) == UrlStat("/index.html", 3, 100.0, 15.0, 5.0, 100.0, 5.0, 5.0)
  {
    var value := [5.0, 5.0, 5.0];
    ExampleSum();
    assert Max(value) == 5.0 by {
      assert forall x :: x in value ==> x == 5.0;
    }
    assert Median.SortAsc(value) == value by {
      assert Median.SortAsc([5.0]) == [5.0];
      assert Median.SortAsc([5.0, 5.0]) == [5.0, 5.0];
    }
    assert Median.Median(value) == Some(5.0);
  }

  lemma {:induction false} EntriesPrefix(lines: seq<string>, k: nat)
    requires k <= |lines|
    ensures Entries(lines[..k]) == Entries(lines)[..k]
    decreases |lines|
  {
    if k < |lines| {
      var init := lines[..|lines| - 1];
      assert init[..k] == lines[..k];
      EntriesPrefix(init, k);
      assert Entries(lines)[..k] == Entries(init)[..k];
    } else {
      assert lines[..k] == lines;
    }
  }

  /** The fold over one more line takes one more turn of the loop. */
  lemma ScanNextLine(lines: seq<string>, i: nat)
    requires i < |lines|
    ensures Scan(Entries(lines[..i])).Raised? ==> Scan(Entries(lines[..i + 1])) == Scan(Entries(lines[..i]))
    ensures Scan(Entries(lines[..i])).Returned? ==>
      Scan(Entries(lines[..i + 1])) == Step(Scan(Entries(lines[..i])).value, Classify(lines[i]))
  {
    assert lines[..i + 1][..i] == lines[..i];
  }

  /** An exception at line `i` is the outcome of the whole file. */
  lemma RaisedAtLine(lines: seq<string>, i: nat)
    requires i < |lines| && Scan(Entries(lines[..i + 1])).Raised?
    ensures Scan(Entries(lines)) == Scan(Entries(lines[..i + 1]))
  {
    EntriesPrefix(lines, i + 1);
    ScanRaisedStays(Entries(lines), i + 1);
  }

  /** A line the parser rejects counts as a line and as an error. */
  lemma LineBroken(lines: seq<string>, i: nat, t: Tally)
    requires i < |lines| && Scan(Entries(lines[..i])) == Returned(t)
    requires LineParser.ParseLine(RStrip(lines[i])).NoMatch?
    ensures Scan(Entries(lines[..i + 1])) == Step(t, Broken)
  {
    ScanNextLine(lines, i);
    assert Classify(lines[i]) == Broken;
  }

  /** A line whose request has no space in it raises `IndexError` out of the whole scan. */
  lemma LineIndexError(lines: seq<string>, i: nat)
    requires i < |lines| && Scan(Entries(lines[..i])).Returned?
    requires LineParser.ParseLine(RStrip(lines[i])).IndexErrorRaised?
    ensures Scan(Entries(lines)) == Raised(IndexError)
  {
    ScanNextLine(lines, i);
    RaisedAtLine(lines, i);
  }

  /** A line whose time `float` refuses raises `ValueError` out of the whole scan. */
  lemma LineValueError(lines: seq<string>, i: nat, url: string, time: string)
    requires i < |lines| && Scan(Entries(lines[..i])).Returned?
    requires LineParser.ParseLine(RStrip(lines[i])) == LineParser.Parsed(url, time)
    requires LineParser.IsTimeToken(time) && Duration.ToFloat(time).None?
    ensures Scan(Entries(lines)) == Raised(ValueError)
  {
    ScanNextLine(lines, i);
    assert Classify(lines[i]) == Crash(ValueError);
    RaisedAtLine(lines, i);
  }

  /** A parsed line takes one turn of the loop. */
  lemma LineHit(lines: seq<string>, i: nat, t: Tally, url: string, time: string, v: real)
    requires i < |lines| && Scan(Entries(lines[..i])) == Returned(t)
    requires LineParser.ParseLine(RStrip(lines[i])) == LineParser.Parsed(url, time)
    requires LineParser.IsTimeToken(time) && Duration.ToFloat(time) == Some(v)
    ensures Scan(Entries(lines[..i + 1])) == Step(t, Hit(url, v))
  {
    ScanNextLine(lines, i);
    assert Classify(lines[i]) == Hit(url, v);
  }

  /**
   * The loop body's statements for a parsed line: a URL with no list yet
   * (or an empty one) gets `[]`, then the duration is appended; together
   * with the counters this is one turn of the loop over `t`.
   */
  method AddDuration(ghost t: Tally, urls: seq<string>, times: map<string, seq<real>>, url: string, v: real)
    returns (urls': seq<string>, times': map<string, seq<real>>)
    requires t.urls == urls && t.times == times
    ensures Step(t, Hit(url, v)) == Returned(Tally(t.lines + 1, t.errors, t.timeSum + v, urls', times'))
  {
    urls', times' := urls, times;
    if !(url in times' && times'[url] != []) {
      if url !in times' {
        urls' := urls' + [url];
      }
      times' := times'[url := []];
      assert times'[url := [] + [v]] == times[url := [] + [v]];
    }
    times' := times'[url := times'[url] + [v]];
  }

  /**
   * The head of the loop body: `parser_log_string(line.rstrip())`, which
   * may raise `IndexError`, then `float` of the time, which may raise
   * `ValueError`.
   */
  method ReadLine(lines: seq<string>, i: nat) returns (e: Entry)
    requires i < |lines|
    ensures e == Entries(lines)[i]
  {
    EntriesAt(lines, i);
    var line := lines[i];
    var res := LineParser.ParseLine(RStrip(line));
    if res.IndexErrorRaised? {
      return Crash(IndexError);
    }
    if res.NoMatch? {
      return Broken;
    }
    var converted := Duration.ToFloat(res.time);
    if converted.None? {
      return Crash(ValueError);
    }
    e := Hit(res.url, converted.value);
  }

  /**
   * The first loop of `get_statistics_logs`: the counters and the
   * dictionary after every line, or the exception a line raises.
   */
  method ScanLines(lines: seq<string>) returns (r: Outcome<Tally>)
    ensures r == Scan(Entries(lines))
  {
    ghost var es := Entries(lines);
    var countErrorString: nat := 0;
    var countLogString: nat := 0;
    var timeSum := 0.0;
    var urls: seq<string> := [];
    var times: map<string, seq<real>> := map[];
    var i := 0;
    while i < |lines|
      invariant 0 <= i <= |lines|
      invariant Scan(es[..i]) == Returned(Tally(countLogString, countErrorString, timeSum, urls, times))
    {
      ghost var before := Tally(countLogString, countErrorString, timeSum, urls, times);
      var e := ReadLine(lines, i);
      ScanNext(es, i);
      assert Scan(es[..i + 1]) == Step(before, e);
      match e {
        case Crash(error) =>
          ScanRaisedStays(es, i + 1);
          return Raised(error);
        case Broken =>
          countLogString := countLogString + 1;
          countErrorString := countErrorString + 1;
          assert Step(before, e) == Returned(Tally(before.lines + 1, before.errors + 1, before.timeSum, urls, times));
          assert Scan(es[..i + 1]) == Returned(Tally(countLogString, countErrorString, timeSum, urls, times));
        case Hit(url, timeRequest) =>
          countLogString := countLogString + 1;
          urls, times := AddDuration(before, urls, times, url, timeRequest);
          timeSum := timeSum + timeRequest;
          assert Step(before, e) == Step(before, Hit(url, timeRequest));
          assert Step(before, Hit(url, timeRequest)) == Returned(Tally(before.lines + 1, before.errors, before.timeSum + timeRequest, urls, times));
          assert Tally(countLogString, countErrorString, timeSum, urls, times) == Tally(before.lines + 1, before.errors, before.timeSum + timeRequest, urls, times);
          assert Scan(es[..i + 1]) == Returned(Tally(countLogString, countErrorString, timeSum, urls, times));
      }
      i := i + 1;
    }
    assert es[..i] == es;
    r := Returned(Tally(countLogString, countErrorString, timeSum, urls, times));
  }

  /**
   * The second loop of `get_statistics_logs`: one record per key of the
   * dictionary, in its order, then the error rate.
   */
  method BuildStatistics(t: Tally) returns (s: Statistics)
    requires Consistent(t)
    ensures s == Finalise(t)
  {
    FinaliseParts(t);
    var result := BuildRecords(t.urls, t.times, t.lines - t.errors, t.timeSum);
    var error := ErrorRate(t.lines, t.errors);
    s := Statistics(result, error);
  }

  /** The loop over the dictionary's items: one record per key, in order. */
  method BuildRecords(keys: seq<string>, times: map<string, seq<real>>, countSum: nat, total: real) returns (result: seq<UrlStat>)
    requires forall k :: k in keys ==> k in times && times[k] != []
    requires keys != [] ==> countSum > 0
    ensures result == Records(keys, times, countSum, total)
  {
    result := [];
    var k := 0;
    while k < |keys|
      invariant 0 <= k <= |keys|
      invariant result == Records(keys[..k], times, countSum, total)
    {
      var key := keys[k];
      var value := times[key];
      var record := UrlStatOf(key, value, countSum, total);
      result := result + [record];
      RecordsNext(keys, times, countSum, total, k);
      k := k + 1;
    }
    assert keys[..k] == keys;
  }

  /** `get_statistics_logs` on the lines of an opened file. */
  method GetStatistics(lines: seq<string>) returns (r: Outcome<Statistics>)
    ensures r == Analyze(lines)
  {
    var scanned := ScanLines(lines);
    match scanned {
      case Raised(error) =>
        r := Raised(error);
      case Returned(t) =>
        ScanReference(Entries(lines));
        var statistics := BuildStatistics(t);
        r := Returned(statistics);
    }
  }
}
