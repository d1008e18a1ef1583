/**
 * The pieces of Python's text handling that the analyzer relies on:
 * `None`-or-value results, the `\s` and `\d` character classes of `re`,
 * `str.rstrip()` and `str.split(' ')`.
 */
module PyText {

  /** A Python value that is either `None` or a real value. */
  datatype Option<+T> = None | Some(value: T)

  /**
   * Python's `str.isspace`, which is also what `\s` matches in a `str`
   * pattern and what `str.rstrip()` removes: the ASCII white space
   * `\t \n \v \f \r` and space, the separators U+001C..U+001F, and the
   * Unicode space characters.
   */
  predicate IsSpace(c: char) {
    || c == ' '
    || '\t' <= c <= '\r'
    || '\U{1C}' <= c <= '\U{1F}'
    || c == '\U{85}'
    || c == '\U{A0}'
    || c == '\U{1680}'
    || '\U{2000}' <= c <= '\U{200A}'
    || c == '\U{2028}'
    || c == '\U{2029}'
    || c == '\U{202F}'
    || c == '\U{205F}'
    || c == '\U{3000}'
  }

  /** `\d`, restricted to the ASCII digits. */
  predicate IsDigit(c: char) {
    '0' <= c <= '9'
  }

  predicate AllDigits(s: string) {
    forall i :: 0 <= i < |s| ==> IsDigit(s[i])
  }

  predicate AllSpace(s: string) {
    forall i :: 0 <= i < |s| ==> IsSpace(s[i])
  }

  /** `str.rstrip()` with no argument: drops every trailing white-space character. */
  function RStrip(s: string): (r: string)
    ensures r <= s
    ensures r == [] || !IsSpace(r[|r| - 1])
    ensures forall i :: |r| <= i < |s| ==> IsSpace(s[i])
  {
    if |s| > 0 && IsSpace(s[|s| - 1]) then RStrip(s[..|s| - 1]) else s
  }

  /** The position of the first occurrence of `c` in `s` (`str.index`). */
  function FirstIndexOf(s: string, c: char): (k: nat)
    requires c in s
    ensures k < |s| && s[k] == c && c !in s[..k]
  {
    if s[0] == c then 0 else 1 + FirstIndexOf(s[1..], c)
  }

  lemma FirstIndexOfAt(s: string, c: char, k: nat)
    requires k < |s| && s[k] == c && c !in s[..k]
    ensures FirstIndexOf(s, c) == k
  {
  }

  /**
   * `s.split(' ')`: cuts at every single space, keeping the empty pieces
   * that neighbouring spaces produce.
   */
  function SplitSpace(s: string): (r: seq<string>)
    ensures |r| >= 1
    ensures forall k :: 0 <= k < |r| ==> ' ' !in r[k]
    decreases |s|
  {
    if ' ' !in s then [s]
    else
      var k := FirstIndexOf(s, ' ');
      [s[..k]] + SplitSpace(s[k + 1..])
  }

  /** `' '.join(parts)`, the inverse of `SplitSpace`. */
  function JoinSpace(parts: seq<string>): string
    requires |parts| >= 1
  {
    if |parts| == 1 then parts[0] else parts[0] + " " + JoinSpace(parts[1..])
  }

  lemma {:induction false} JoinSplitSpace(s: string)
    ensures JoinSpace(SplitSpace(s)) == s
    decreases |s|
  {
    if ' ' in s {
      var k := FirstIndexOf(s, ' ');
      var pieces := SplitSpace(s[k + 1..]);
      assert SplitSpace(s) == [s[..k]] + pieces;
      assert ([s[..k]] + pieces)[1..] == pieces;
      JoinSplitSpace(s[k + 1..]);
      assert JoinSpace(SplitSpace(s)) == s[..k] + " " + JoinSpace(pieces);
      assert s == s[..k] + " " + s[k + 1..];
    }
  }

  lemma {:induction false} SplitJoinSpace(parts: seq<string>)
    requires |parts| >= 1
    requires forall k :: 0 <= k < |parts| ==> ' ' !in parts[k]
    ensures SplitSpace(JoinSpace(parts)) == parts
  {
    if |parts| > 1 {
      var s := JoinSpace(parts);
      var rest := JoinSpace(parts[1..]);
      var k := |parts[0]|;
      assert s == parts[0] + " " + rest;
      assert s[k] == ' ' && s[..k] == parts[0] && s[k + 1..] == rest;
      FirstIndexOfAt(s, ' ', k);
      assert SplitSpace(s) == [parts[0]] + SplitSpace(rest);
      SplitJoinSpace(parts[1..]);
      assert parts == [parts[0]] + parts[1..];
    }
  }

  /** `s.split(' ')` has a piece at index 1 exactly when `s` holds a space. */
  lemma SplitSpaceHasSecond(s: string)
    ensures |SplitSpace(s)| >= 2 <==> ' ' in s
  {
    if ' ' in s {
      var k := FirstIndexOf(s, ' ');
      assert |SplitSpace(s[k + 1..])| >= 1;
    }
  }

  /**
   * Piece 1 of `s.split(' ')` is the text after the first space, up to the
   * second space or the end of `s`.
   */
  lemma {:induction false} SplitSpaceSecond(s: string, first: nat, second: nat)
    requires first < second <= |s|
    requires s[first] == ' ' && ' ' !in s[..first]
    requires ' ' !in s[first + 1..second]
    requires second == |s| || s[second] == ' '
    ensures |SplitSpace(s)| >= 2 && SplitSpace(s)[1] == s[first + 1..second]
  {
    assert ' ' in s by { assert s[first] == ' '; }
    var k := FirstIndexOf(s, ' ');
    assert k == first;
    var rest := s[first + 1..];
    var m := second - (first + 1);
    assert rest[..m] == s[first + 1..second];
    if second == |s| {
      assert rest == s[first + 1..second];
      assert ' ' !in rest;
    } else {
      assert rest[m] == ' ';
      var k2 := FirstIndexOf(rest, ' ');
      assert k2 == m;
    }
  }
}
