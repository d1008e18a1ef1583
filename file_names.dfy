/**
 * The names of files: `get_report_filename`, which builds the report's
 * name from the first run of eight digits in the log's name, and the
 * selection loop of `get_last_logs_filename`, which keeps the matching
 * log name whose eight-digit chunks compare greatest.
 */
module FileNames {
  import opened PyText
  import Duration

  /** The length of the dates `\d{8}` finds. */
  const DateLength := 8

  /** `\d{8}` matches at `i`. */
  predicate DateAt(s: string, i: int) {
    0 <= i && i + DateLength <= |s| && AllDigits(s[i..i + DateLength])
  }

  /** `re.search(r'\d{8}', s)` from position `from`: where the leftmost match starts. */
  function FindDate(s: string, from: nat): (r: Option<nat>)
    decreases |s| - from
    ensures r.Some? ==> from <= r.value && DateAt(s, r.value) && forall j :: from <= j < r.value ==> !DateAt(s, j)
    ensures r.None? ==> forall j :: from <= j ==> !DateAt(s, j)
  {
    if from + DateLength > |s| then None
    else if AllDigits(s[from..from + DateLength]) then Some(from)
    else FindDate(s, from + 1)
  }

  /**
   * `get_report_filename(log_filename)`: `report-YYYY.MM.DD.html` from the
   * first eight digits `YYYYMMDD` of the name, or `None` when it has none.
   */
  function ReportFilename(logFilename: string): Option<string>
  {
    match FindDate(logFilename, 0)
    case None => None
    case Some(i) =>
      var date := logFilename[i..i + DateLength];
      Some("report-" + date[0..4] + "." + date[4..6] + "." + date[6..8] + ".html")
  }

  /** The eight digits a report name was built from, read back. */
  function ReportDate(report: string): string
    requires |report| == 22
  {
    report[7..11] + report[12..14] + report[15..17]
  }

  /**
   * The report name is `None` exactly when the log name holds no eight
   * digits in a row. Otherwise it has the fixed shape
   * `report-....`.`..`.`...html` and reads back as the leftmost eight
   * digits of the log name.
   */
  lemma ReportFilenameSpec(logFilename: string)
    ensures ReportFilename(logFilename).None? <==> forall i :: !DateAt(logFilename, i)
    ensures ReportFilename(logFilename).Some? ==>
      var report := ReportFilename(logFilename).value;
      && |report| == 22
      && report[..7] == "report-" && report[11] == '.' && report[14] == '.' && report[17..] == ".html"
      && exists i :: && DateAt(logFilename, i)
                     && (forall j :: 0 <= j < i ==> !DateAt(logFilename, j))
                     && ReportDate(report) == logFilename[i..i + DateLength]
  {
    match FindDate(logFilename, 0)
    case None =>
    case Some(i) =>
      var date := logFilename[i..i + DateLength];
      var report := ReportFilename(logFilename).value;
      assert report == "report-" + date[0..4] + "." + date[4..6] + "." + date[6..8] + ".html";
      assert report[7..11] == date[0..4] && report[12..14] == date[4..6] && report[15..17] == date[6..8];
      assert date == date[0..4] + date[4..6] + date[6..8];
  }

  /**
   * A name made of a part without digits, eight digits and any rest gets
   * the report of those eight digits.
   */
  lemma ReportOfDatedName(prefix: string, date: string, suffix: string)
    requires forall k :: 0 <= k < |prefix| ==> !IsDigit(prefix[k])
    requires |date| == DateLength && AllDigits(date)
    ensures ReportFilename(prefix + date + suffix)
         == Some("report-" + date[0..4] + "." + date[4..6] + "." + date[6..8] + ".html")
  {
    var s := prefix + date + suffix;
    assert s[|prefix|..|prefix| + DateLength] == date;
    forall j | 0 <= j < |prefix| ensures !DateAt(s, j) {
      assert s[j] == prefix[j];
      if j + DateLength <= |s| {
        assert s[j..j + DateLength][0] == s[j];
      }
    }
    assert DateAt(s, |prefix|);
    assert FindDate(s, 0) == Some(|prefix|);
  }

  /**
   * A name whose digits, all between two parts without digits, are fewer
   * than eight has no report.
   */
  lemma ReportOfShortDigits(prefix: string, digits: string, suffix: string)
    requires forall k :: 0 <= k < |prefix| ==> !IsDigit(prefix[k])
    requires forall k :: 0 <= k < |suffix| ==> !IsDigit(suffix[k])
    requires |digits| < DateLength
    ensures ReportFilename(prefix + digits + suffix) == None
  {
    var s := prefix + digits + suffix;
    var end := |prefix| + |digits|;
    forall j | 0 <= j ensures !DateAt(s, j) {
      if j + DateLength <= |s| {
        var window := s[j..j + DateLength];
        if j < |prefix| {
          assert window[0] == prefix[j];
        } else if j > end {
          assert window[0] == suffix[j - end];
        } else {
          assert window[end - j] == suffix[0];
        }
      }
    }
  }

  lemma ReportOfDatedLog()
    ensures ReportFilename("nginx-access-ui.log-" + "20190505" + ".log") == Some("report-2019.05.05.html")
  {
    ReportOfDatedName("nginx-access-ui.log-", "20190505", ".log");
    var d := "20190505";
    assert d[0..4] == "2019" && d[4..6] == "05" && d[6..8] == "05";
    assert "report-" + "2019" + "." + "05" + "." + "05" + ".html" == "report-2019.05.05.html";
  }

  lemma ReportOfUndatedLog()
    ensures ReportFilename("test.nginx-access-ui.log-" + "201" + ".log") == None
  {
    ReportOfShortDigits("test.nginx-access-ui.log-", "201", ".log");
  }

  lemma ReportOfLeadingDate()
    ensures ReportFilename([] + "20200101" + ".log") == Some("report-2020.01.01.html")
  {
    ReportOfDatedName([], "20200101", ".log");
    var d := "20200101";
    assert d[0..4] == "2020" && d[4..6] == "01" && d[6..8] == "01";
    assert "report-" + "2020" + "." + "01" + "." + "01" + ".html" == "report-2020.01.01.html";
  }

  // ---------------------------------------------------------------------
  // `re.findall(r'\d{8}', name)` and Python's ordering of its results.

  /** The non-overlapping runs of eight digits from position `from`, left to right. */
  function ChunksFrom(s: string, from: nat): (r: seq<string>)
    decreases |s| - from
    ensures forall k :: 0 <= k < |r| ==> |r[k]| == DateLength && AllDigits(r[k])
  {
    if from + DateLength > |s| then []
    else if AllDigits(s[from..from + DateLength]) then [s[from..from + DateLength]] + ChunksFrom(s, from + DateLength)
    else ChunksFrom(s, from + 1)
  }

  /** `re.findall(r'\d{8}', name)`. */
  function DateChunks(s: string): seq<string>
  {
    ChunksFrom(s, 0)
  }

  /**
   * `findall` finds a chunk exactly when `search` finds a date, and its
   * first chunk is that date: the one the report is named after.
   */
  lemma {:induction false} ChunksStartAtDate(s: string, from: nat)
    ensures ChunksFrom(s, from) == [] <==> FindDate(s, from).None?
    ensures ChunksFrom(s, from) != [] ==>
      var i := FindDate(s, from).value;
      ChunksFrom(s, from)[0] == s[i..i + DateLength]
    decreases |s| - from
  {
    if from + DateLength <= |s| && !AllDigits(s[from..from + DateLength]) {
      ChunksStartAtDate(s, from + 1);
    }
  }

  /** Python's `<` on `str`: code point by code point, a proper prefix first. */
  predicate StrLess(a: string, b: string)
    decreases |a|
  {
    if a == [] then b != []
    else if b == [] then false
    else if a[0] != b[0] then a[0] < b[0]
    else StrLess(a[1..], b[1..])
  }

  /** Python's `<` on lists of `str`: element by element, a proper prefix first. */
  predicate ListLess(a: seq<string>, b: seq<string>)
    decreases |a|
  {
    if a == [] then b != []
    else if b == [] then false
    else if a[0] != b[0] then StrLess(a[0], b[0])
    else ListLess(a[1..], b[1..])
  }

  lemma {:induction false} StrLessIrreflexive(a: string)
    ensures !StrLess(a, a)
  {
    if a != [] {
      StrLessIrreflexive(a[1..]);
    }
  }

  /** Of two different strings one is below the other, and never both. */
  lemma {:induction false} StrLessTotal(a: string, b: string)
    ensures a == b || StrLess(a, b) || StrLess(b, a)
    ensures StrLess(a, b) ==> !StrLess(b, a)
  {
    if a != [] && b != [] && a[0] == b[0] {
      StrLessTotal(a[1..], b[1..]);
      assert a == [a[0]] + a[1..] && b == [b[0]] + b[1..];
    }
  }

  lemma {:induction false} StrLessTransitive(a: string, b: string, c: string)
    requires StrLess(a, b) && StrLess(b, c)
    ensures StrLess(a, c)
  {
    if a != [] && a[0] == b[0] && b[0] == c[0] {
      StrLessTransitive(a[1..], b[1..], c[1..]);
    }
  }

  lemma {:induction false} ListLessIrreflexive(a: seq<string>)
    ensures !ListLess(a, a)
  {
    if a != [] {
      ListLessIrreflexive(a[1..]);
    }
  }

  /** Of two different lists of strings one is below the other, and never both. */
  lemma {:induction false} ListLessTotal(a: seq<string>, b: seq<string>)
    ensures a == b || ListLess(a, b) || ListLess(b, a)
    ensures ListLess(a, b) ==> !ListLess(b, a)
  {
    if a != [] && b != [] {
      if a[0] == b[0] {
        ListLessTotal(a[1..], b[1..]);
        assert a == [a[0]] + a[1..] && b == [b[0]] + b[1..];
      } else {
        StrLessTotal(a[0], b[0]);
      }
    }
  }

  lemma {:induction false} ListLessTransitive(a: seq<string>, b: seq<string>, c: seq<string>)
    requires ListLess(a, b) && ListLess(b, c)
    ensures ListLess(a, c)
  {
    if a != [] {
      if a[0] == b[0] && b[0] == c[0] {
        ListLessTransitive(a[1..], b[1..], c[1..]);
      } else if a[0] != b[0] && b[0] != c[0] {
        StrLessTransitive(a[0], b[0], c[0]);
        if a[0] == c[0] {
          StrLessTotal(a[0], b[0]);
        }
      }
    }
  }

  /**
   * Two runs of eight digits compare as strings the way the numbers they
   * spell compare: the greatest `YYYYMMDD` chunk is the latest date.
   */
  lemma {:induction false} DigitStringsCompareAsNumbers(a: string, b: string)
    requires |a| == |b| && AllDigits(a) && AllDigits(b)
    ensures StrLess(a, b) <==> Duration.DigitsValue(a) < Duration.DigitsValue(b)
    decreases |a|
  {
    if a != [] {
      LeadingDigit(a);
      LeadingDigit(b);
      DigitStringsCompareAsNumbers(a[1..], b[1..]);
      LeadingDigitDecides(Duration.DigitValue(a[0]), Duration.DigitValue(b[0]),
        Duration.DigitsValue(a[1..]), Duration.DigitsValue(b[1..]), Duration.Pow10(|a| - 1));
    }
  }

  /** A run of digits is its leading digit's value times a power of ten, plus the value of the rest. */
  lemma LeadingDigit(a: string)
    requires a != [] && AllDigits(a)
    ensures AllDigits(a[1..])
    ensures Duration.DigitsValue(a) == Duration.DigitValue(a[0]) * Duration.Pow10(|a| - 1) + Duration.DigitsValue(a[1..])
    ensures Duration.DigitsValue(a[1..]) < Duration.Pow10(|a| - 1)
  {
    var head, tail := a[..1], a[1..];
    assert AllDigits(tail) by {
      forall k | 0 <= k < |tail| ensures IsDigit(tail[k]) { assert tail[k] == a[k + 1]; }
    }
    assert AllDigits(head) by { assert head[0] == a[0]; }
    assert Duration.DigitsValue(head) == Duration.DigitValue(a[0]) by {
      assert head[..0] == [] && head[0] == a[0];
    }
    Duration.DigitsValueAppend(head, tail);
    assert head + tail == a;
    Duration.DigitsValueBelow(tail);
  }

  /** Numbers with the same number of digits compare first by their leading digit. */
  lemma LeadingDigitDecides(x: nat, y: nat, u: nat, v: nat, p: nat)
    requires u < p && v < p
    ensures x * p + u < y * p + v <==> x < y || (x == y && u < v)
  {
    if x < y {
      assert (x + 1) * p <= y * p;
    } else if y < x {
      assert (y + 1) * p <= x * p;
    }
  }

  // ---------------------------------------------------------------------
  // The selection loop of `get_last_logs_filename`.

  /** A name the loop can keep: it matches the pattern and is not the empty, falsy, name. */
  predicate Candidate(matches: string -> bool, name: string) {
    matches(name) && name != ""
  }

  /** A value of `last_filename` that Python reads as true. */
  predicate Truthy(last: Option<string>) {
    last.Some? && last.value != ""
  }

  /**
   * The loop over the directory listing `files`, with `matches` standing
   * for `re.match(pattern_log_filename, name)`: `None` exactly when no
   * name is a candidate; otherwise a candidate whose chunks no candidate's
   * chunks exceed, and the first such in the listing, since only a
   * strictly greater name replaces the one kept.
   */
  method LatestLog(files: seq<string>, matches: string -> bool) returns (r: Option<string>)
    ensures r.None? <==> forall j :: 0 <= j < |files| ==> !Candidate(matches, files[j])
    ensures r.Some? ==> exists at ::
      && 0 <= at < |files| && files[at] == r.value && Candidate(matches, r.value)
      && (forall j :: 0 <= j < |files| && Candidate(matches, files[j]) ==> !ListLess(DateChunks(r.value), DateChunks(files[j])))
      && (forall j :: 0 <= j < at && Candidate(matches, files[j]) ==> ListLess(DateChunks(files[j]), DateChunks(r.value)))
  {
    var last: Option<string> := None;
    ghost var at := 0;
    var i := 0;
    while i < |files|
      invariant 0 <= i <= |files|
      invariant !Truthy(last) <==> forall j :: 0 <= j < i ==> !Candidate(matches, files[j])
      invariant Truthy(last) ==> 0 <= at < i && files[at] == last.value && Candidate(matches, last.value)
      invariant Truthy(last) ==>
        forall j :: 0 <= j < i && Candidate(matches, files[j]) ==> !ListLess(DateChunks(last.value), DateChunks(files[j]))
      invariant Truthy(last) ==>
        forall j :: 0 <= j < at && Candidate(matches, files[j]) ==> ListLess(DateChunks(files[j]), DateChunks(last.value))
    {
      var file := files[i];
      if matches(file) {
        if !Truthy(last) || ListLess(DateChunks(last.value), DateChunks(file)) {
          if Truthy(last) {
            KeepOrder(files, matches, i, at, last.value);
          } else if file != "" {
            ListLessIrreflexive(DateChunks(file));
          }
          last := Some(file);
          at := i;
        }
      }
      i := i + 1;
    }
    if !Truthy(last) {
      return None;
    }
    return last;
  }

  /**
   * When name `i` replaces the kept name, which no earlier candidate
   * exceeds, the new name exceeds every earlier candidate.
   */
  lemma KeepOrder(files: seq<string>, matches: string -> bool, i: nat, at: nat, kept: string)
    requires at < i < |files| && files[at] == kept
    requires ListLess(DateChunks(kept), DateChunks(files[i]))
    requires forall j :: 0 <= j < i && Candidate(matches, files[j]) ==> !ListLess(DateChunks(kept), DateChunks(files[j]))
    ensures files[i] != ""
    ensures forall j :: 0 <= j <= i && Candidate(matches, files[j]) ==> !ListLess(DateChunks(files[i]), DateChunks(files[j]))
    ensures forall j :: 0 <= j < i && Candidate(matches, files[j]) ==> ListLess(DateChunks(files[j]), DateChunks(files[i]))
  {
    var top := DateChunks(files[i]);
    assert DateChunks("") == [];
    forall j | 0 <= j <= i && Candidate(matches, files[j])
      ensures !ListLess(top, DateChunks(files[j]))
      ensures j < i ==> ListLess(DateChunks(files[j]), top)
    {
      var c := DateChunks(files[j]);
      ListLessTotal(c, DateChunks(kept));
      ListLessTotal(c, top);
      if c == DateChunks(kept) {
      } else if ListLess(c, DateChunks(kept)) {
        ListLessTransitive(c, DateChunks(kept), top);
      }
    }
  }

  lemma ChunkExamples()
    ensures DateChunks("nginx-access-ui.log-20190505") == ["20190505"]
  {
    var s := "nginx-access-ui.log-20190505";
    assert AllDigits(s[20..28]);
    assert ChunksFrom(s, 28) == [];
    assert s[20..28] == "20190505";
    assert ChunksFrom(s, 20) == ["20190505"];
    forall j | 0 <= j < 20 ensures ChunksFrom(s, j) == ChunksFrom(s, j + 1) {
      assert s[j..j + DateLength][0] == s[j];
    }
    ChunksFromSkip(s, 0, 20);
  }

  lemma ChunkOrderExamples()
    ensures ListLess(["20170630"], ["20190505"])
    ensures !ListLess(["20190505"], ["20190505"])
  {
    assert StrLess("20170630", "20190505") by {
      assert "20170630"[1..] == "0170630" && "20190505"[1..] == "0190505";
      assert "0170630"[1..] == "170630" && "0190505"[1..] == "190505";
      assert "170630"[1..] == "70630" && "190505"[1..] == "90505";
    }
    ListLessIrreflexive(["20190505"]);
  }

  /** Positions that start no chunk are skipped one by one. */
  lemma {:induction false} ChunksFromSkip(s: string, from: nat, to: nat)
    requires from <= to
    requires forall j :: from <= j < to ==> ChunksFrom(s, j) == ChunksFrom(s, j + 1)
    ensures ChunksFrom(s, from) == ChunksFrom(s, to)
  {
    if from < to {
      ChunksFromSkip(s, from, to - 1);
    }
  }
}
