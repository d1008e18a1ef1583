# nginx log analyzer: the statistics pipeline in Dafny

This project models the computational core of `log_analyzer.py`, a script
that reads the latest nginx access log, and reports per-URL request-time
statistics. The model covers:

- `get_median_value_from_list`: the median of a sorted copy (`median.dfy`).
- `parser_log_string`: two regular-expression searches per line. The first
  finds a quoted request span `"A<ws>B<ws>C"`; the second finds the
  end-anchored time `\d+.\d+$`, whose `.` is unescaped. The URL is field 1
  of `split(' ')` of the span (`line_parser.dfy`, with `py_text.dfy` for
  Python's `isspace`, `rstrip` and `split(' ')`).
- `float(time_request)` on the text the time pattern matched (`duration.dfy`).
- The body of `get_statistics_logs` (`aggregation.dfy`):
  - the scan loop, as an imperative method over the file's lines;
  - the finalisation loop, as a method that appends one record per URL;
  - both proved equal to a pure fold and to line-by-line reference
    definitions.
- `get_limit_report`: a stable descending sort by `time_sum` and a Python
  slice (`top_report.dfy`).
- `get_report_filename` and the selection loop of `get_last_logs_filename`,
  with `re.search`/`re.findall` of `\d{8}` and Python's ordering of strings
  and lists (`file_names.dfy`).
- `get_config_filename_from_cmd` (`command_line.dfy`).

Python's `None` is `Option.None`. Durations are exact reals.

A line can make the source raise out of the scan loop, and the model keeps
both cases as `Outcome.Raised`:
- `IndexError` from `split(' ')[1]`, when the request span is separated by
  tabs only;
- `ValueError` from `float`, when the unescaped `.` matched a letter, as in
  `12a34`.

Where the code and the specification of the system disagree, the model
follows the code:
- A rejected line never aborts the scan, but the two exceptions above do.
- The time is the leftmost match of `\d+.\d+$`, not a decimal token.
- The URL is piece 1 of a split at single spaces, not of a split at
  white-space runs.
- `get_limit_report` returns `None`, not an empty list, for an empty input.
- A negative `report_size` drops records from the end, as a Python slice
  does, instead of giving an empty list.
- The shares of the parsed lines add up to exactly 100 whenever some line
  parsed, not only when no line was rejected.

## Model

| member | source | states |
|---|---|---|
| `PyText.RStrip` | log_analyzer.py:221 | `line.rstrip()` is a prefix of the line; it does not end in white space; everything it drops is white space |
| `PyText.SplitSpace` | log_analyzer.py:185 | `split(' ')` returns at least one piece and no piece holds a space |
| `PyText.JoinSplitSpace` | log_analyzer.py:185 | joining the pieces of `split(' ')` with single spaces gives back the string |
| `PyText.SplitJoinSpace` | log_analyzer.py:185 | splitting a space-joined list of space-free pieces gives back the pieces |
| `PyText.SplitSpaceHasSecond` | log_analyzer.py:185 | `split(' ')` has a piece at index 1 exactly when the string holds a space |
| `PyText.SplitSpaceSecond` | log_analyzer.py:185 | piece 1 of `split(' ')` is the text between the first space and the next space or the end |
| `LineParser.RequestShapeIff` | log_analyzer.py:180 | a quote-free span matches `[^"]+\s+[^"]+\s+[^"]+` exactly when the scan's separator test holds |
| `LineParser.FindRequest` | log_analyzer.py:180-183 | the scan finds the leftmost match of the quoted request pattern; nothing further left matches |
| `LineParser.TimeStartsAtIff` | log_analyzer.py:181 | the scan's test at a position holds exactly when `\d+.\d+$` matches there |
| `LineParser.FindTime` | log_analyzer.py:181-183 | the scan finds the leftmost start of a match of `\d+.\d+$`; nothing further left matches |
| `LineParser.ParseLine` | log_analyzer.py:173-189 | a parsed URL holds no space and a parsed time has the shape digits, one character, digits |
| `LineParser.ParseLineNoMatch` | log_analyzer.py:180-184 | `None` exactly when one of the two patterns has no match anywhere in the line |
| `LineParser.FoundSplit` | log_analyzer.py:185-188 | given the two matches, the result is `IndexError` when the request span holds no space, else field 1 of the span and the time text up to the end of the line or its final newline |
| `LineParser.FindTimeFindsFirst` | log_analyzer.py:181-183 | the time scan returns the leftmost match that `re.search` reports |
| `LineParser.ParseLineMatches` | log_analyzer.py:183-188 | with the leftmost matches of both patterns, the result is `IndexError` when the span holds no space, else (field 1 of the span, the unconverted time text) |
| `LineParser.RequestEndUnique` | log_analyzer.py:180 | a request match that starts at a quote ends at the next quote |
| `LineParser.FindRequestFindsFirst` | log_analyzer.py:183 | the scan returns the match that `re.search` reports |
| `LineParser.SecondFieldIsSplit` | log_analyzer.py:185 | the URL the parser takes is `split(' ')[1]` of the matched span |
| `LineParser.TimeBarrier` | log_analyzer.py:181 | no match of `\d+.\d+$` starts at or before a non-digit that is not preceded by a digit |
| `LineParser.NoTrailingDigit` | log_analyzer.py:181 | a line that does not end in a digit (before a final newline) has no time match |
| `LineParser.TrailingTime` | log_analyzer.py:181 | a line ending in digits, one character, digits, after two non-digits, has its time match exactly on that tail |
| `LineParser.ParseEmptyLine` | test_log_analyzer.py:59 | the empty line parses to `None` |
| `LineParser.ParseLineWithoutTime` | test_log_analyzer.py:61 | `8.8.8. "GET /index.html HTTP/1.1" "-" ` parses to `None` |
| `LineParser.ParseComposedLine` | log_analyzer.py:180-188 | a line with one quoted span holding two white-space separators yields `IndexError` when the span holds no space, else field 1 of the quoted group and the time match |
| `LineParser.TimeTokenOfMatch` | log_analyzer.py:181-186 | the text a time match covers has the shape digits, one character, digits |
| `LineParser.TimeMatchEnd` | log_analyzer.py:181 | every time match ends at the end of the line or before its final newline |
| `LineParser.TimeMatchDigits` | log_analyzer.py:181 | every character of a time match except the middle one is a digit |
| `LineParser.ParseRequestLine` | log_analyzer.py:180-188 | a line whose first quoted span is `verb url protocol` with single spaces yields `url` and the time match |
| `LineParser.ParseBareRequest` | test_log_analyzer.py:60 | `"GET / HTTP/1.1" 9.99` parses to `('/', '9.99')` |
| `LineParser.ParseFullLine` | test_log_analyzer.py:57-58 | `192.168.122.1 - "GET /index.html HTTP/1.1" "-" 39.023` parses to `('/index.html', '39.023')` |
| `LineParser.TabSeparatedRequestRaises` | log_analyzer.py:185 | a request span separated by tabs matches both patterns but raises `IndexError` |
| `Duration.ToFloat` | log_analyzer.py:229 | `float` of a time token raises exactly when a character other than a digit, `.`, `_`, `e` or `E` occurs; its value is never negative |
| `Duration.JointToken` | log_analyzer.py:229 | `float` of digits, a joint character and digits is the value that joint gives them |
| `Duration.DecimalToken` | log_analyzer.py:229 | `float('W.F')` is W plus F over ten to the number of F's digits, at least W and below W + 1; `float('W_F')` is the integer WF |
| `Duration.ExponentToken` | log_analyzer.py:229 | `float('WeE')` is W times ten to the E |
| `Duration.OtherJointRaises` | log_analyzer.py:229 | any other joint character, a letter say, makes `float` raise `ValueError` |
| `Duration.DigitToken` | log_analyzer.py:229 | a time token of digits only reads as the integer it spells |
| `Duration.FloatOfTestTime` | test_log_analyzer.py:57-58 | `float('39.023')` is 39.023 |
| `Duration.FloatOfLetterJoint` | log_analyzer.py:229 | `float('12a34')` raises |
| `Median.InsertSorted` | log_analyzer.py:162 | inserting into an ascending list keeps it ascending |
| `Median.InsertElements` | log_analyzer.py:162 | inserting adds exactly the element to the list's elements |
| `Median.SortAscSorted` | log_analyzer.py:162 | `sorted` returns an ascending permutation of the list |
| `Median.SortedUnique` | log_analyzer.py:162 | two ascending lists with the same elements are equal, so the sorted copy is determined by the list's elements |
| `Median.MedianOfSortedArrangement` | log_analyzer.py:158-170 | `None` exactly for the empty list; otherwise the middle of ANY ascending arrangement, or the mean of its two middles for an even length |
| `Median.MedianIgnoresOrder` | log_analyzer.py:162 | reordering the list does not change the median |
| `Median.MedianWithinRange` | log_analyzer.py:158-170 | the median lies between some element and some element of the list |
| `Median.MedianOfNoneAndOne` | test_log_analyzer.py:47-48 | `[]` gives `None`, `[1.1]` gives 1.1 |
| `Median.MedianOfTwo` | test_log_analyzer.py:49 | `[1.1, 10]` gives 5.55 |
| `Median.MedianOfThree` | test_log_analyzer.py:50 | `[17, 1.1, 8]` gives 8 |
| `Median.MedianOfSeven` | test_log_analyzer.py:51 | `[6, 5, 4, 3, 2, 1, 0]` gives 3 |
| `Aggregation.Classify` | log_analyzer.py:221-229 | a line is rejected exactly when the parser returns `None` on its right-stripped text, raises `IndexError` exactly when the parser does, and otherwise carries a space-free URL and a duration that is never negative |
| `Aggregation.ScanLines` | log_analyzer.py:216-233 | the imperative scan loop computes the fold `Scan` of the lines' fates, raising where a line raises |
| `Aggregation.ReadLine` | log_analyzer.py:221-229 | one line's fate (rejected, raising, or URL and duration) is the one the reference definition gives that line |
| `Aggregation.ScanRaises` | log_analyzer.py:223-233 | the scan raises exactly when some line raises, and then with the error of the first such line |
| `Aggregation.ScanReference` | log_analyzer.py:223-233 | after the scan: lines counted, rejected lines counted, each parsed URL once in order of first appearance with exactly its durations in file order, `time_sum` the sum of all durations, parsed lines equal to the total length of the lists |
| `Aggregation.ScanRaisedStays` | log_analyzer.py:223-233 | once a prefix of the file raises, the whole scan raises with the same error |
| `Aggregation.ScanNext` | log_analyzer.py:223-233 | the scan of one more entry is that entry's step on the scan so far; an earlier raise passes through |
| `Aggregation.ScanAllBroken` | log_analyzer.py:223-227 | a file of rejected lines counts every line as an error, with no keys and `time_sum` 0 |
| `Aggregation.FirstSeenDistinct` | log_analyzer.py:230-231 | the dictionary's keys, in insertion order, are pairwise distinct |
| `Aggregation.FirstSeenIff` | log_analyzer.py:230-231 | a URL is a key exactly when some line parsed to it |
| `Aggregation.StepHit` | log_analyzer.py:228-233 | after one more parsed line the dictionary still holds, for every URL, exactly its durations in file order, keys in order of first appearance, and the totals stay consistent |
| `Aggregation.AddDuration` | log_analyzer.py:230-233 | the two dictionary statements (create the key when `get(url)` is falsy, append the duration) give the keys and lists of the scan's step for a parsed line |
| `Aggregation.StepNewConsistent` | log_analyzer.py:230-233 | a new URL enters as a key whose list is its one duration, keeping the counts and the sum consistent |
| `Aggregation.StepKnownConsistent` | log_analyzer.py:232-233 | a known URL's list grows by the duration, keeping the counts and the sum consistent |
| `Aggregation.ScanNextLine` | log_analyzer.py:223-233 | the scan of one more line is the step of that line on the scan so far, and an earlier raise passes through |
| `Aggregation.RaisedAtLine` | log_analyzer.py:223-233 | a line that raises ends the scan with its error whatever follows |
| `Aggregation.LineBroken` | log_analyzer.py:224-227 | a line the parser rejects takes the scan one rejected-line step further |
| `Aggregation.LineIndexError` | log_analyzer.py:221-223 | a line on which the parser raises `IndexError` makes the whole scan raise `IndexError` |
| `Aggregation.LineValueError` | log_analyzer.py:229 | a parsed line whose time `float` rejects makes the whole scan raise `ValueError` |
| `Aggregation.LineHit` | log_analyzer.py:228-233 | a parsed line with a convertible time applies the dictionary step with its URL and duration |
| `Aggregation.Max` | log_analyzer.py:244 | `max(value)` is an element of the list and no element exceeds it |
| `Aggregation.Mean` | log_analyzer.py:246 | `time_avg` times the count is `time_sum` |
| `Aggregation.MedianOrZero` | log_analyzer.py:247-248 | `median if median else 0` is the median of the list |
| `Aggregation.UrlStatOf` | log_analyzer.py:239-249 | a record has its URL, count equal to the list's length (at least 1), and `time_sum` equal to the list's sum |
| `Aggregation.UrlStatMax` | log_analyzer.py:244 | a record's `time_max` is an element of its list and no element exceeds it |
| `Aggregation.UrlStatMeanMedian` | log_analyzer.py:246-248 | a record's `time_avg` times its count is its `time_sum`, and its `time_med` is the median of its list |
| `Aggregation.UrlStatShares` | log_analyzer.py:242-245 | `count_perc` is the count's share of the parsed lines and `time_perc` the time's share of `time_sum or 1` |
| `Aggregation.CountTotalPositive` | log_analyzer.py:236-242 | the parsed lines are at least as many as the keys, so `count_sum` is not zero whenever a record is built |
| `Aggregation.Finalise` | log_analyzer.py:235-251 | one record per key of the dictionary |
| `Aggregation.FinaliseParts` | log_analyzer.py:235-251 | the parsed lines are at least as many as the keys; the result is the keys' records, taken with the parsed lines and `time_sum`, and the error rate |
| `Aggregation.RecordsNext` | log_analyzer.py:237-249 | the records of one more key are the records so far followed by that key's record |
| `Aggregation.ReflectsKey` | log_analyzer.py:223-238 | key `k` of a finished scan is the `k`-th URL in order of first appearance, its list is that URL's durations in file order, and the parsed lines and `time_sum` are those of the file |
| `Aggregation.RecordAt` | log_analyzer.py:238-249 | the record at position `k` is the record of key `k` with its list |
| `Aggregation.FinaliseRecord` | log_analyzer.py:238-249 | record `k` is the record of key `k` and its list, taken with the parsed lines and the global `time_sum` |
| `Aggregation.BuildStatistics` | log_analyzer.py:235-251 | the imperative finalisation loop returns the records and the error rate `Finalise` defines |
| `Aggregation.BuildRecords` | log_analyzer.py:237-250 | the imperative loop over the keys appends exactly the records `Records` defines, in key order |
| `Aggregation.CountPercRecords` | log_analyzer.py:242 | the records' `count_perc` values add up to the share of all their durations |
| `Aggregation.CountPercSumOf` | log_analyzer.py:242 | records whose `count_perc` is each key's list length over `count_sum` have shares adding up to the share of all the lists' lengths |
| `Aggregation.TimePercRecords` | log_analyzer.py:245 | the records' `time_perc` values add up to the share of all their durations' sum |
| `Aggregation.TimePercSumOf` | log_analyzer.py:245 | records whose `time_perc` is each key's time sum over the whole have shares adding up to the share of all the durations' sum |
| `Aggregation.PercentagesAddUp` | log_analyzer.py:236-249 | the `count_perc` values add up to 100 whenever there is a record, and the `time_perc` values add up to 100 whenever `time_sum` is not zero |
| `Aggregation.ErrorRateBounds` | log_analyzer.py:250 | the error rate is between 0 and 100; it is 0 for an empty file and 100 when no line parsed; it times `lines or 1` is 100 times the rejected lines |
| `Aggregation.AnalyzeNothingParsed` | log_analyzer.py:223-251 | a file in which no line parses gives no records and error rate 100, and an empty file error rate 0 |
| `Aggregation.AnalyzeReference` | log_analyzer.py:216-251 | the statistics are returned exactly when no line raises; then one record per parsed URL in order of first appearance, each the record of that URL's durations in file order, and the error rate is the share of the rejected lines |
| `Aggregation.FinaliseExample` | test_log_analyzer.py:67-74 | three lines for `/index.html` of 5 seconds each and three rejected lines give one record (count 3, shares 100, sum 15, max, mean and median 5) and error rate 50 |
| `Aggregation.GetStatistics` | log_analyzer.py:216-251 | the two loops together compute `Analyze` of the lines |
| `TopReport.SortDescSpec` | log_analyzer.py:264 | the sort returns a permutation of its input in non-increasing `time_sum` order that keeps input order among records with equal `time_sum` |
| `TopReport.SortDescDescending` | log_analyzer.py:264 | the sort's result is non-increasing in `time_sum` |
| `TopReport.SortDescElements` | log_analyzer.py:264 | the sort's result is a permutation of its input |
| `TopReport.SortDescStable` | log_analyzer.py:264 | for each `time_sum`, the records with it appear in the result in input order |
| `TopReport.DescendingStableUnique` | log_analyzer.py:264 | two descending lists that agree, for every `time_sum`, on the records with it in order are equal |
| `TopReport.SortDescUnique` | log_analyzer.py:264 | any descending, stable permutation of the input is the one the sort returns |
| `TopReport.InsertDescSorted` | log_analyzer.py:264 | inserting into a descending list keeps it descending |
| `TopReport.InsertDescElements` | log_analyzer.py:264 | inserting adds exactly the record to the list's elements |
| `TopReport.InsertDescStable` | log_analyzer.py:264 | inserting a record puts it after every record with its `time_sum` |
| `TopReport.LimitReportSpec` | log_analyzer.py:254-270 | `None` exactly for `None` or an empty list; otherwise the slice length `report_size` gives, non-increasing in `time_sum`, drawn from the input, no record left out has a larger `time_sum` than one kept, and for each `time_sum` the kept records are the first ones of that `time_sum` in input order |
| `TopReport.PrefixTop` | log_analyzer.py:269 | a slice of the sorted list holds the records with the largest times |
| `TopReport.PrefixAbove` | log_analyzer.py:269 | in a descending list no record after position `k` has a larger `time_sum` than one before it |
| `TopReport.LimitReportOfNone` | log_analyzer.py:260-261 | `None` and an empty list give `None` |
| `TopReport.LimitReportOfTwo` | test_log_analyzer.py:82-85 | times 15 and 25 with size 1 keep only the 25 record |
| `TopReport.LimitReportLongerThanList` | test_log_analyzer.py:87 | a size beyond the length keeps every record |
| `TopReport.LimitReportTies` | log_analyzer.py:264-269 | equal times keep input order, and size -1 drops the last record |
| `FileNames.FindDate` | log_analyzer.py:125 | `re.search(r'\d{8}')` finds the leftmost run of eight digits, or reports that there is none |
| `FileNames.ReportFilenameSpec` | log_analyzer.py:120-130 | `None` exactly when the name holds no eight digits in a row; otherwise a name of the shape `report-YYYY.MM.DD.html` whose digits read back as the leftmost eight digits of the log name |
| `FileNames.ReportOfDatedName` | log_analyzer.py:125-130 | a name with no digits before an eight-digit run gets the report of that run |
| `FileNames.ReportOfShortDigits` | log_analyzer.py:125-127 | a name whose only digits are one run of fewer than eight gets `None` |
| `FileNames.ReportOfDatedLog` | test_log_analyzer.py:31 | `nginx-access-ui.log-20190505.log` gives `report-2019.05.05.html` |
| `FileNames.ReportOfUndatedLog` | test_log_analyzer.py:32 | `test.nginx-access-ui.log-201.log` gives `None` |
| `FileNames.ReportOfLeadingDate` | test_log_analyzer.py:33 | `20200101.log` gives `report-2020.01.01.html` |
| `FileNames.ChunksStartAtDate` | log_analyzer.py:112-125 | `re.findall(r'\d{8}')` finds a chunk exactly when `re.search` finds a date, and its first chunk is that date |
| `FileNames.StrLessIrreflexive` | log_analyzer.py:112 | no string is below itself |
| `FileNames.StrLessTotal` | log_analyzer.py:112 | Python's `<` on strings: of two different strings exactly one is below the other |
| `FileNames.StrLessTransitive` | log_analyzer.py:112 | Python's `<` on strings is transitive |
| `FileNames.ListLessIrreflexive` | log_analyzer.py:112 | no list of strings is below itself, so an equal date never replaces the kept name |
| `FileNames.ListLessTotal` | log_analyzer.py:112 | Python's `<` on lists of strings: of two different lists exactly one is below the other |
| `FileNames.ListLessTransitive` | log_analyzer.py:112 | Python's `<` on lists of strings is transitive |
| `FileNames.DigitStringsCompareAsNumbers` | log_analyzer.py:112 | two digit strings of one length compare as the numbers they spell, so the greatest `YYYYMMDD` chunk is the latest date |
| `FileNames.LeadingDigit` | log_analyzer.py:112 | a digit string's value is its first digit times the place value plus the value of the rest, which is below that place value |
| `FileNames.LatestLog` | log_analyzer.py:110-117 | `None` exactly when no listed name matches the pattern (the empty name is falsy and never kept); otherwise a matching name whose chunks no matching name's chunks exceed, and the first such name in the listing |
| `FileNames.KeepOrder` | log_analyzer.py:112-113 | a name that replaces the kept one exceeds every earlier candidate and is not exceeded by any |
| `FileNames.ChunkExamples` | test_log_analyzer.py:25-27 | `nginx-access-ui.log-20190505` has the one chunk `20190505` |
| `FileNames.ChunkOrderExamples` | log_analyzer.py:112-113 | the chunk list `[20170630]` is below `[20190505]`, and a chunk list is not below itself |
| `CommandLine.IndexOf` | log_analyzer.py:38-39 | `list.index` finds the first occurrence |
| `CommandLine.ConfigFilenameSpec` | log_analyzer.py:35-40 | a name is returned exactly when the first `--config` is followed by an argument, and it is that argument |
| `CommandLine.ConfigAfterFlag` | log_analyzer.py:35-40 | `before --config name after`, with no flag in `before`, gives `name` |
| `CommandLine.ConfigFlagLast` | log_analyzer.py:38 | a first `--config` that ends the command line gives `None` |
| `CommandLine.ConfigFilenameExamples` | log_analyzer.py:35-40 | `None`, the empty list and a trailing flag give `None`; the first of two flags wins |

## Left out

- Opening, reading and closing the log file, including gzip
  (`get_func_open_file_by_extension`). The lines are given as a sequence.
  The early returns for a missing name or a file that does not open are
  also out.
- `os.path.isdir` and `os.listdir` in `get_last_logs_filename`. The listing
  is given as a sequence and the configured file-name pattern as a
  predicate, because the general regular-expression engine is not modelled.
- `get_config`, `get_config_filename`, `init_logging`,
  `check_exist_reports_directory`, `check_exist_report_file`,
  `save_report_to_html_file`, every `logging` call and `main`, including its
  `error_rate > parsing_error` gate. They are file, configuration and
  template I/O.
- The `except` branch of `get_limit_report`. The model's records always
  carry a comparable `time_sum`, so the sort cannot raise.
- Aggregation.UrlStatOf: `time_perc` is the unrounded share, because
  `round(..., 2)` is binary floating-point rounding.
- Floating point in general. Durations, sums, means and shares are exact
  reals, with no overflow and no rounding. `float` of a token with a huge
  exponent is not infinity.
- Unicode decimal digits other than `0`-`9`, which Python's `\d` also
  matches in `str` patterns.
- Python `int` versus `float` in results, such as `median if median else 0`
  returning the integer 0. The model has one numeric type.
