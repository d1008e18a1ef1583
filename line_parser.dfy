/**
 * `parser_log_string`: two regular-expression searches over one log line.
 *
 *   - the request pattern `"(([^"]+)(\s+)([^"]+)(\s+)([^"]+))"` finds the
 *     first quoted span holding three non-empty parts separated by white
 *     space; the URL is piece 1 of that span (quotes included) split on
 *     single spaces;
 *   - the time pattern `\d+.\d+$` finds the leftmost digits-any-digits run
 *     that ends the line; its `.` is unescaped, so it stands for any
 *     character but a newline, and the matched text is returned unconverted.
 *
 * Each search is written twice: as a ghost predicate that says what the
 * pattern matches, and as an explicit scan that is proved to find the
 * leftmost match, which is what `re.search` returns.
 */
module LineParser {
  import opened PyText

  predicate NoQuote(s: string) {
    forall i :: 0 <= i < |s| ==> s[i] != '"'
  }

  // ---------------------------------------------------------------------
  // The request pattern.

  /** `s` is A W1 B W2 C with A = s[..p1], W1 = s[p1..p2], B = s[p2..p3], W2 = s[p3..p4], C = s[p4..]. */
  ghost predicate RequestCuts(s: string, p1: int, p2: int, p3: int, p4: int) {
    0 < p1 < p2 < p3 < p4 < |s| && AllSpace(s[p1..p2]) && AllSpace(s[p3..p4])
  }

  /** `[^"]+\s+[^"]+\s+[^"]+` matches the whole of `s`. */
  ghost predicate RequestShape(s: string) {
    NoQuote(s) && exists p1, p2, p3, p4 :: RequestCuts(s, p1, p2, p3, p4)
  }

  /** The request pattern matches `line[i..j + 1]`: a quote at `i`, a quote at `j`, the shape between. */
  ghost predicate RequestAt(line: string, i: int, j: int) {
    0 <= i < j < |line| && line[i] == '"' && line[j] == '"' && RequestShape(line[i + 1..j])
  }

  /** The match `re.search` reports: no match of the pattern starts further left. */
  ghost predicate FirstRequest(line: string, i: int, j: int) {
    RequestAt(line, i, j) && forall i', j' :: 0 <= i' < i ==> !RequestAt(line, i', j')
  }

  /**
   * The test the scan performs on a quote-free span: one white-space
   * character with text on its left, a second one at least two places
   * further on, and text after it.
   */
  predicate HasRequestSeparators(s: string) {
    exists k1, k2 | 0 < k1 && k1 + 1 < k2 && k2 + 1 < |s| :: IsSpace(s[k1]) && IsSpace(s[k2])
  }

  lemma RequestShapeIff(s: string)
    requires NoQuote(s)
    ensures RequestShape(s) <==> HasRequestSeparators(s)
  {
    if RequestShape(s) {
      var p1, p2, p3, p4 :| RequestCuts(s, p1, p2, p3, p4);
      assert IsSpace(s[p1..p2][p2 - 1 - p1]);
      assert IsSpace(s[p3..p4][p4 - 1 - p3]);
      assert IsSpace(s[p2 - 1]) && IsSpace(s[p4 - 1]);
    }
    if HasRequestSeparators(s) {
      var k1, k2 :| 0 < k1 && k1 + 1 < k2 && k2 + 1 < |s| && IsSpace(s[k1]) && IsSpace(s[k2]);
      assert s[k1..k1 + 1] == [s[k1]];
      assert s[k2..k2 + 1] == [s[k2]];
      assert RequestCuts(s, k1, k1 + 1, k2, k2 + 1);
    }
  }

  /** The position of the first quote at or after `from`. */
  function NextQuote(line: string, from: nat): (r: Option<nat>)
    decreases |line| - from
    ensures r.Some? ==> from <= r.value < |line| && line[r.value] == '"'
    ensures forall k :: from <= k < |line| && (r.None? || k < r.value) ==> line[k] != '"'
  {
    if from >= |line| then None
    else if line[from] == '"' then Some(from)
    else NextQuote(line, from + 1)
  }

  /**
   * The leftmost match of the request pattern that starts at or after
   * `from`. A span that fails the shape test is skipped only up to its
   * closing quote, which may itself open the next candidate span.
   */
  function FindRequest(line: string, from: nat): (r: Option<(nat, nat)>)
    decreases |line| - from
    ensures r.Some? ==> from <= r.value.0 && RequestAt(line, r.value.0, r.value.1)
    ensures forall i, j :: from <= i && (r.None? || i < r.value.0) ==> !RequestAt(line, i, j)
  {
    match NextQuote(line, from)
    case None => None
    case Some(i) =>
      match NextQuote(line, i + 1)
      case None =>
        assert forall i', j :: from <= i' && RequestAt(line, i', j) ==> line[j] == '"';
        None
      case Some(j) =>
        var span := line[i + 1..j];
        assert NoQuote(span);
        RequestShapeIff(span);
        assert forall j' :: RequestAt(line, i, j') ==> j' == j;
        if HasRequestSeparators(span) then Some((i, j)) else FindRequest(line, j)
  }

  // ---------------------------------------------------------------------
  // The time pattern.

  /** Where `$` matches: the end of the line, or just before a final newline. */
  ghost predicate AtEnd(line: string, e: int) {
    e == |line| || (0 <= e == |line| - 1 && line[e] == '\n')
  }

  /** `\d+.\d+$` matches `line[i..e]`, with its `.` matching `line[m]`. */
  ghost predicate TimeMatch(line: string, i: int, m: int, e: int) {
    && 0 <= i < m
    && m + 1 < e <= |line|
    && AtEnd(line, e)
    && AllDigits(line[i..m])
    && line[m] != '\n'
    && AllDigits(line[m + 1..e])
  }

  /** The time pattern has a match starting at `i`. */
  ghost predicate TimeAt(line: string, i: int) {
    exists m, e :: TimeMatch(line, i, m, e)
  }

  ghost predicate FirstTime(line: string, t: int) {
    TimeAt(line, t) && forall t' :: 0 <= t' < t ==> !TimeAt(line, t')
  }

  /** The one place where a time match can end. */
  function TimeEnd(line: string): (e: nat)
    ensures e <= |line|
  {
    if |line| > 0 && line[|line| - 1] == '\n' then |line| - 1 else |line|
  }

  lemma TimeMatchEnd(line: string, i: int, m: int, e: int)
    requires TimeMatch(line, i, m, e)
    ensures e == TimeEnd(line)
  {
    assert IsDigit(line[m + 1..e][e - 1 - (m + 1)]);
  }

  /** The end of the run of digits that starts at `i`. */
  function DigitRunEnd(line: string, i: nat): (r: nat)
    requires i <= |line|
    decreases |line| - i
    ensures i <= r <= |line| && AllDigits(line[i..r])
    ensures r == |line| || !IsDigit(line[r])
  {
    if i < |line| && IsDigit(line[i]) then
      var r := DigitRunEnd(line, i + 1);
      assert line[i..r] == [line[i]] + line[i + 1..r];
      r
    else i
  }

  /**
   * The scan's test for a time match at `i`: the digit run from `i` either
   * reaches the end and is at least three long (its `.` then matches a
   * digit), or stops at a non-newline character that is followed by
   * digits up to the end.
   */
  predicate TimeStartsAt(line: string, i: nat)
    requires i <= |line|
  {
    var e := TimeEnd(line);
    var r := DigitRunEnd(line, i);
    i < r && ((r == e && e - i >= 3) || (r + 1 < e && line[r] != '\n' && AllDigits(line[r + 1..e])))
  }

  lemma TimeStartsAtIff(line: string, i: nat)
    requires i <= |line|
    ensures TimeStartsAt(line, i) <==> TimeAt(line, i)
  {
    var e := TimeEnd(line);
    var r := DigitRunEnd(line, i);
    if TimeStartsAt(line, i) {
      if r == e && e - i >= 3 {
        assert line[i..i + 1] == line[i..r][..1];
        assert line[i + 2..e] == line[i..r][2..];
        assert TimeMatch(line, i, i + 1, e);
      } else {
        assert line[i..r] == line[i..r];
        assert TimeMatch(line, i, r, e);
      }
    }
    if TimeAt(line, i) {
      var m, e' :| TimeMatch(line, i, m, e');
      TimeMatchEnd(line, i, m, e');
      assert m <= r;
      if m < r {
        assert r >= e;
        assert r == e;
      }
    }
  }

  /** The leftmost start, at or after `from`, of a time match. */
  function FindTime(line: string, from: nat): (r: Option<nat>)
    requires from <= |line|
    decreases |line| - from
    ensures r.Some? ==> from <= r.value <= |line| && TimeAt(line, r.value)
    ensures forall t :: from <= t && (r.None? || t < r.value) ==> !TimeAt(line, t)
  {
    TimeStartsAtIff(line, from);
    if TimeStartsAt(line, from) then Some(from)
    else if from == |line| then
      assert forall t :: from <= t ==> !TimeAt(line, t);
      None
    else FindTime(line, from + 1)
  }

  /** The shape of what the time pattern matches: digits, one non-newline character, digits. */
  predicate IsTimeToken(t: string) {
    exists m | 0 < m < |t| - 1 :: AllDigits(t[..m]) && t[m] != '\n' && AllDigits(t[m + 1..])
  }

  // ---------------------------------------------------------------------
  // The parser.

  /**
   * What `parser_log_string` does with one line: returns `None`, returns
   * the pair (url, time), or raises `IndexError` when the request span
   * holds no space for `split(' ')` to cut at (its separators are tabs or
   * other white space).
   */
  datatype ParseResult = NoMatch | Parsed(url: string, time: string) | IndexErrorRaised

  function ParseLine(line: string): (r: ParseResult)
    ensures r.Parsed? ==> ' ' !in r.url && IsTimeToken(r.time)
  {
    var request := FindRequest(line, 0);
    var time := FindTime(line, 0);
    if request.Some? && time.Some? then ParseFound(line, request.value.0, request.value.1, time.value)
    else NoMatch
  }

  /**
   * The parser's result once the request pattern matched `line[i..j + 1]`
   * and the time pattern matched from `t`: `split(' ')[1]` of the request
   * group, which raises when there is no piece 1, and the time text.
   */
  function ParseFound(line: string, i: nat, j: nat, t: nat): (r: ParseResult)
    requires i <= j < |line| && TimeAt(line, t)
    ensures r.Parsed? ==> ' ' !in r.url && IsTimeToken(r.time)
  {
    var pieces := SplitSpace(line[i..j + 1]);
    if |pieces| < 2 then IndexErrorRaised
    else
      TimeTokenOfMatch(line, t);
      Parsed(pieces[1], line[t..TimeEnd(line)])
  }

  /** The parser returns `None` exactly when one of the two patterns matches nowhere in the line. */
  lemma ParseLineNoMatch(line: string)
    ensures ParseLine(line).NoMatch? <==> (forall i, j :: !RequestAt(line, i, j)) || (forall t :: !TimeAt(line, t))
  {
    var request := FindRequest(line, 0);
    var time := FindTime(line, 0);
    if request.Some? && time.Some? {
      assert RequestAt(line, request.value.0, request.value.1) && TimeAt(line, time.value);
    }
  }

  lemma TimeTokenOfMatch(line: string, t: nat)
    requires TimeAt(line, t)
    ensures t <= TimeEnd(line) && IsTimeToken(line[t..TimeEnd(line)])
  {
    var m, e :| TimeMatch(line, t, m, e);
    TimeMatchEnd(line, t, m, e);
    var token := line[t..e];
    assert token[..m - t] == line[t..m];
    assert token[m - t + 1..] == line[m + 1..e];
    assert token[m - t] == line[m];
  }

  /**
   * On a line where both patterns match, the parser uses the leftmost match
   * of each: it raises `IndexError` when the request span has no space,
   * and otherwise returns the text between the span's first and second
   * spaces (or its end) and the unconverted time match.
   */
  lemma ParseLineMatches(line: string, i: int, j: int, t: int)
    requires FirstRequest(line, i, j) && FirstTime(line, t)
    ensures ' ' !in line[i..j + 1] ==> ParseLine(line) == IndexErrorRaised
    ensures ' ' in line[i..j + 1] ==> t <= TimeEnd(line) && ParseLine(line) == Parsed(SecondField(line[i..j + 1]), line[t..TimeEnd(line)])
  {
    FindRequestFindsFirst(line, i, j);
    FindTimeFindsFirst(line, t);
    assert ParseLine(line) == ParseFound(line, i, j, t);
    FoundSplit(line, i, j, t);
  }

  /** `ParseFound` raises exactly when the group holds no space, and otherwise takes its field 1. */
  lemma FoundSplit(line: string, i: nat, j: nat, t: nat)
    requires i <= j < |line| && TimeAt(line, t)
    ensures ' ' !in line[i..j + 1] ==> ParseFound(line, i, j, t) == IndexErrorRaised
    ensures ' ' in line[i..j + 1] ==> t <= TimeEnd(line) && ParseFound(line, i, j, t) == Parsed(SecondField(line[i..j + 1]), line[t..TimeEnd(line)])
  {
    TimeTokenOfMatch(line, t);
    var group := line[i..j + 1];
    SplitSpaceHasSecond(group);
    if ' ' in group {
      SecondFieldIsSplit(group);
    }
  }

  /** The time search returns the match `re.search` reports. */
  lemma FindTimeFindsFirst(line: string, t: int)
    requires FirstTime(line, t)
    ensures FindTime(line, 0) == Some(t)
  {
    var r := FindTime(line, 0);
    assert r.Some?;
    assert !(r.value < t);
  }

  /** A match of the request pattern ends at the first quote after its opening one. */
  lemma RequestEndUnique(line: string, i: int, j: int, j': int)
    requires RequestAt(line, i, j) && RequestAt(line, i, j')
    ensures j == j'
  {
  }

  lemma FindRequestFindsFirst(line: string, i: int, j: int)
    requires FirstRequest(line, i, j)
    ensures FindRequest(line, 0) == Some((i, j))
  {
    var r := FindRequest(line, 0);
    assert r.Some?;
    assert r.value.0 == i;
    RequestEndUnique(line, i, j, r.value.1);
  }

  /** The text after the first space of `s`, up to the next space or the end. */
  function SecondField(s: string): (f: string)
    requires ' ' in s
    ensures ' ' !in f
  {
    var first := FirstIndexOf(s, ' ');
    var rest := s[first + 1..];
    if ' ' in rest then rest[..FirstIndexOf(rest, ' ')] else rest
  }

  lemma SecondFieldIsSplit(s: string)
    requires ' ' in s
    ensures |SplitSpace(s)| >= 2 && SplitSpace(s)[1] == SecondField(s)
  {
    var first := FirstIndexOf(s, ' ');
    var rest := s[first + 1..];
    if ' ' in rest {
      var k := FirstIndexOf(rest, ' ');
      var second := first + 1 + k;
      assert SecondField(s) == rest[..k];
      assert s[first + 1..second] == rest[..k];
      assert s[second] == rest[k];
      SplitSpaceSecond(s, first, second);
    } else {
      assert SecondField(s) == rest;
      assert s[first + 1..|s|] == rest;
      SplitSpaceSecond(s, first, |s|);
    }
  }

  // ---------------------------------------------------------------------
  // The cases the unit tests pin down.

  /** Every character of a time match but its `.` is a digit. */
  lemma TimeMatchDigits(line: string, t: int, m: int, e: int)
    requires TimeMatch(line, t, m, e)
    ensures forall k :: t <= k < e && k != m ==> IsDigit(line[k])
  {
    forall k | t <= k < e && k != m ensures IsDigit(line[k]) {
      if k < m {
        assert line[t..m][k - t] == line[k];
      } else {
        assert line[m + 1..e][k - m - 1] == line[k];
      }
    }
  }

  /** A non-digit that does not follow a digit ends every time match that could start before it. */
  lemma TimeBarrier(line: string, p: nat)
    requires p < TimeEnd(line) && !IsDigit(line[p])
    requires p == 0 || !IsDigit(line[p - 1])
    ensures forall t :: 0 <= t <= p ==> !TimeAt(line, t)
  {
    forall t | 0 <= t <= p && TimeAt(line, t) ensures false {
      var m, e :| TimeMatch(line, t, m, e);
      TimeMatchEnd(line, t, m, e);
      TimeMatchDigits(line, t, m, e);
    }
  }

  /** A line whose last character (before a final newline) is not a digit has no time match. */
  lemma NoTrailingDigit(line: string)
    requires TimeEnd(line) == 0 || !IsDigit(line[TimeEnd(line) - 1])
    ensures forall t :: !TimeAt(line, t)
  {
    forall t | TimeAt(line, t) ensures false {
      var m, e :| TimeMatch(line, t, m, e);
      TimeMatchEnd(line, t, m, e);
      TimeMatchDigits(line, t, m, e);
    }
  }

  lemma ParseEmptyLine()
    ensures ParseLine("") == NoMatch
  {
  }

  lemma ParseLineWithoutTime()
    ensures ParseLine("8.8.8. \"GET /index.html HTTP/1.1\" \"-\" ") == NoMatch
  {
    NoTrailingDigit("8.8.8. \"GET /index.html HTTP/1.1\" \"-\" ");
  }

  /**
   * The parse of `pre + '"' + span + '"' + post` when `pre` holds no quote,
   * `span` has the request shape and the leftmost time match starts at `t`.
   */
  lemma ParseComposedLine(pre: string, span: string, post: string, k1: nat, k2: nat, t: nat)
    requires NoQuote(pre)
    requires NoQuote(span) && 0 < k1 && k1 + 1 < k2 && k2 + 1 < |span| && IsSpace(span[k1]) && IsSpace(span[k2])
    requires FirstTime(pre + "\"" + span + "\"" + post, t)
    ensures var line := pre + "\"" + span + "\"" + post;
            var group := "\"" + span + "\"";
            && (' ' !in span ==> ParseLine(line) == IndexErrorRaised)
            && (' ' in span ==> t <= TimeEnd(line) && ' ' in group && ParseLine(line) == Parsed(SecondField(group), line[t..TimeEnd(line)]))
  {
    var line := pre + "\"" + span + "\"" + post;
    var i, j := |pre|, |pre| + |span| + 1;
    assert line[i + 1..j] == span;
    assert line[..i] == pre;
    RequestShapeIff(span);
    assert FirstRequest(line, i, j);
    assert line[i..j + 1] == "\"" + span + "\"";
    assert ' ' in span <==> ' ' in "\"" + span + "\"";
    ParseLineMatches(line, i, j, t);
  }

  /** Field 1 of `a + " " + b + " " + c` is `b` when neither `a` nor `b` holds a space. */
  lemma SecondFieldOfWords(a: string, b: string, c: string)
    requires ' ' !in a && ' ' !in b
    ensures ' ' in a + " " + b + " " + c && SecondField(a + " " + b + " " + c) == b
  {
    var s := a + " " + b + " " + c;
    assert s[|a|] == ' ' && s[..|a|] == a;
    FirstIndexOfAt(s, ' ', |a|);
    var rest := s[|a| + 1..];
    assert rest == b + " " + c;
    assert rest[|b|] == ' ' && rest[..|b|] == b;
    FirstIndexOfAt(rest, ' ', |b|);
  }

  /**
   * A line whose first quoted span is `verb url protocol` (the HTTP method, the path and the protocol), separated by
   * single spaces, yields `url`, together with the text of its time match.
   */
  lemma ParseRequestLine(pre: string, verb: string, url: string, protocol: string, post: string, t: nat)
    requires NoQuote(pre) && NoQuote(verb) && NoQuote(url) && NoQuote(protocol)
    requires |verb| > 0 && |url| > 0 && |protocol| > 0
    requires ' ' !in verb && ' ' !in url
    requires FirstTime(pre + "\"" + verb + " " + url + " " + protocol + "\"" + post, t)
    ensures var line := pre + "\"" + verb + " " + url + " " + protocol + "\"" + post;
            t <= TimeEnd(line) && ParseLine(line) == Parsed(url, line[t..TimeEnd(line)])
  {
    var span := verb + " " + url + " " + protocol;
    var k1, k2 := |verb|, |verb| + 1 + |url|;
    RequestSpanOfWords(verb, url, protocol);
    assert pre + "\"" + span + "\"" + post == pre + "\"" + verb + " " + url + " " + protocol + "\"" + post;
    ParseComposedLine(pre, span, post, k1, k2, t);
    GroupOfWords(verb, url, protocol);
  }

  lemma NoQuoteConcat(a: string, b: string)
    requires NoQuote(a) && NoQuote(b)
    ensures NoQuote(a + b)
  {
    forall k | 0 <= k < |a + b| ensures (a + b)[k] != '"' {
      if k >= |a| { assert (a + b)[k] == b[k - |a|]; }
    }
  }

  lemma RequestSpanOfWords(verb: string, url: string, protocol: string)
    requires NoQuote(verb) && NoQuote(url) && NoQuote(protocol)
    requires |verb| > 0 && |url| > 0 && |protocol| > 0
    ensures var span := verb + " " + url + " " + protocol;
            var k1, k2 := |verb|, |verb| + 1 + |url|;
            && NoQuote(span) && 0 < k1 && k1 + 1 < k2 && k2 + 1 < |span|
            && IsSpace(span[k1]) && IsSpace(span[k2]) && ' ' in span
  {
    NoQuoteConcat(verb, " ");
    NoQuoteConcat(verb + " ", url);
    NoQuoteConcat(verb + " " + url, " ");
    NoQuoteConcat(verb + " " + url + " ", protocol);
    var span := verb + " " + url + " " + protocol;
    assert span[|verb|] == ' ';
  }

  lemma GroupOfWords(verb: string, url: string, protocol: string)
    requires ' ' !in verb && ' ' !in url
    ensures var group := "\"" + (verb + " " + url + " " + protocol) + "\"";
            ' ' in group && SecondField(group) == url
  {
    assert "\"" + (verb + " " + url + " " + protocol) + "\"" == ("\"" + verb) + " " + url + " " + (protocol + "\"");
    assert ' ' !in "\"" + verb by {
      assert "\"" + verb == ['"'] + verb;
    }
    SecondFieldOfWords("\"" + verb, url, protocol + "\"");
  }

  /*
   * The unit-test lines below are given as their pieces, so that each line
   * is `pre + '"' + verb + ' ' + url + ' ' + protocol + '"' + post`.
   */

  /**
   * A line that ends in digits, one character and digits, after two
   * characters that are not digits, has its leftmost time match there.
   */
  lemma TrailingTime(head: string, whole: string, joint: char, fraction: string)
    requires |head| >= 2 && !IsDigit(head[|head| - 1]) && !IsDigit(head[|head| - 2])
    requires 0 < |whole| && 0 < |fraction| && AllDigits(whole) && AllDigits(fraction) && joint != '\n'
    ensures var line := head + whole + [joint] + fraction;
            FirstTime(line, |head|) && TimeEnd(line) == |line| && line[|head|..] == whole + [joint] + fraction
  {
    var line := head + whole + [joint] + fraction;
    var t, m, e := |head|, |head| + |whole|, |line|;
    assert line[t..m] == whole && line[m] == joint && line[m + 1..e] == fraction;
    assert line[e - 1] == fraction[|fraction| - 1];
    assert TimeEnd(line) == e by { assert IsDigit(line[e - 1]); }
    assert TimeMatch(line, t, m, e);
    assert line[t - 1] == head[t - 1] && line[t - 2] == head[t - 2];
    TimeBarrier(line, t - 1);
    assert line[t..] == whole + [joint] + fraction;
  }

  lemma BareRequestTime(pre: string, verb: string, url: string, protocol: string, post: string)
    requires pre == "" && verb == "GET" && url == "/" && protocol == "HTTP/1.1" && post == " 9.99"
    ensures var line := pre + "\"" + verb + " " + url + " " + protocol + "\"" + post;
            FirstTime(line, 17) && TimeEnd(line) == 21 && line[17..21] == "9.99"
  {
    var head := "\"GET / HTTP/1.1\" ";
    assert pre + "\"" + verb + " " + url + " " + protocol + "\"" + post == head + "9" + ['.'] + "99";
    TrailingTime(head, "9", '.', "99");
  }

  /** `"GET / HTTP/1.1" 9.99` parses to ('/', '9.99'). */
  lemma ParseBareRequest(pre: string, verb: string, url: string, protocol: string, post: string)
    requires pre == "" && verb == "GET" && url == "/" && protocol == "HTTP/1.1" && post == " 9.99"
    ensures ParseLine(pre + "\"" + verb + " " + url + " " + protocol + "\"" + post) == Parsed("/", "9.99")
  {
    BareRequestTime(pre, verb, url, protocol, post);
    ParseRequestLine(pre, verb, url, protocol, post, 17);
  }

  lemma FullLineTime(pre: string, verb: string, url: string, protocol: string, post: string)
    requires pre == "192.168.122.1 - " && verb == "GET" && url == "/index.html" && protocol == "HTTP/1.1"
    requires post == " \"-\" 39.023"
    ensures var line := pre + "\"" + verb + " " + url + " " + protocol + "\"" + post;
            FirstTime(line, 47) && TimeEnd(line) == 53 && line[47..53] == "39.023"
  {
    var request := pre + "\"" + verb + " " + url + " " + protocol + "\"";
    var head := request + " \"-\" ";
    assert post == " \"-\" " + "39" + ['.'] + "023";
    assert request + post == head + "39" + ['.'] + "023";
    assert |head| == 47 && head[46] == ' ' && head[45] == '"';
    TrailingTime(head, "39", '.', "023");
    assert "39" + ['.'] + "023" == "39.023";
  }

  /** `192.168.122.1 - "GET /index.html HTTP/1.1" "-" 39.023` parses to ('/index.html', '39.023'). */
  lemma ParseFullLine(pre: string, verb: string, url: string, protocol: string, post: string)
    requires pre == "192.168.122.1 - " && verb == "GET" && url == "/index.html" && protocol == "HTTP/1.1"
    requires post == " \"-\" 39.023"
    ensures ParseLine(pre + "\"" + verb + " " + url + " " + protocol + "\"" + post) == Parsed("/index.html", "39.023")
  {
    FullLineTime(pre, verb, url, protocol, post);
    ParseRequestLine(pre, verb, url, protocol, post, 47);
  }

  lemma TabLineTime(pre: string, span: string, post: string)
    requires pre == "" && span == "GET\t/\tHTTP/1.1" && post == " 9.99"
    ensures FirstTime(pre + "\"" + span + "\"" + post, 17)
  {
    var head := "\"GET\t/\tHTTP/1.1\" ";
    assert pre + "\"" + span + "\"" + post == head + "9" + ['.'] + "99";
    TrailingTime(head, "9", '.', "99");
  }

  /**
   * The IndexError hazard: `"GET<tab>/<tab>HTTP/1.1" 9.99` matches both
   * patterns, but its request span holds no space for `split(' ')`.
   */
  lemma TabSeparatedRequestRaises(pre: string, span: string, post: string)
    requires pre == "" && span == "GET\t/\tHTTP/1.1" && post == " 9.99"
    ensures ParseLine(pre + "\"" + span + "\"" + post) == IndexErrorRaised
  {
    TabLineTime(pre, span, post);
    TabSpan(span);
    ParseComposedLine(pre, span, post, 3, 5, 17);
  }

  lemma TabSpan(span: string)
    requires span == "GET\t/\tHTTP/1.1"
    ensures NoQuote(span) && ' ' !in span && |span| == 14 && IsSpace(span[3]) && IsSpace(span[5])
  {
  }
}
