/**
 * `float(time_request)`: Python's conversion of the text matched by the
 * time pattern, `\d+.\d+`, into a number. The `.` of the pattern matches
 * any character but a newline, so the text is digits, one character,
 * digits; `float` accepts it when that character is a decimal point, a
 * digit, an underscore between digits or an exponent mark, and raises
 * `ValueError` otherwise. Values are exact reals.
 */
module Duration {
  import opened PyText
  import LineParser

  function DigitValue(c: char): nat
    requires IsDigit(c)
  {
    c as int - '0' as int
  }

  /** The number a run of decimal digits spells. */
  function DigitsValue(s: string): nat
    requires AllDigits(s)
  {
    if s == [] then 0 else DigitsValue(s[..|s| - 1]) * 10 + DigitValue(s[|s| - 1])
  }

  function Pow10(n: nat): (r: nat)
    ensures r >= 1
  {
    if n == 0 then 1 else 10 * Pow10(n - 1)
  }

  /** The characters `float` accepts between two runs of digits. */
  predicate IsNumberJoint(c: char) {
    IsDigit(c) || c == '.' || c == '_' || c == 'e' || c == 'E'
  }

  /** Where the leading run of digits of `s` stops. */
  function LeadingDigits(s: string): (m: nat)
    ensures m <= |s| && AllDigits(s[..m])
    ensures m == |s| || !IsDigit(s[m])
  {
    var r := LineParser.DigitRunEnd(s, 0);
    assert s[..r] == s[0..r];
    r
  }

  /** A digit run that stops at `p` has its leading digits end at `p`. */
  lemma LeadingDigitsAt(s: string, p: nat)
    requires p <= |s| && AllDigits(s[..p]) && (p == |s| || !IsDigit(s[p]))
    ensures LeadingDigits(s) == p
  {
    var m := LeadingDigits(s);
    assert forall k :: 0 <= k < m ==> IsDigit(s[k]) by {
      forall k | 0 <= k < m ensures IsDigit(s[k]) { assert s[..m][k] == s[k]; }
    }
    assert forall k :: 0 <= k < p ==> IsDigit(s[k]) by {
      forall k | 0 <= k < p ensures IsDigit(s[k]) { assert s[..p][k] == s[k]; }
    }
  }

  /**
   * In a time token the leading run of digits either fills the token or
   * stops at the one character the pattern's `.` matched.
   */
  lemma TokenJoint(token: string)
    requires LineParser.IsTimeToken(token)
    ensures var m := LeadingDigits(token);
            m == |token| || (0 < m < |token| - 1 && AllDigits(token[m + 1..]))
  {
    var m := LeadingDigits(token);
    var m' :| 0 < m' < |token| - 1 && AllDigits(token[..m']) && token[m'] != '\n' && AllDigits(token[m' + 1..]);
    assert forall k :: 0 <= k < |token| && k != m' ==> IsDigit(token[k]) by {
      forall k | 0 <= k < |token| && k != m' ensures IsDigit(token[k]) {
        if k < m' { assert token[..m'][k] == token[k]; } else { assert token[m' + 1..][k - m' - 1] == token[k]; }
      }
    }
    if !IsDigit(token[m']) {
      LeadingDigitsAt(token, m');
    }
  }

  /**
   * `float(whole + joint + fraction)` for runs of digits `whole` and
   * `fraction` and a joint that is not a digit.
   */
  function JointValue(whole: string, joint: char, fraction: string): (r: Option<real>)
    requires AllDigits(whole) && AllDigits(fraction) && !IsDigit(joint)
    ensures r.None? <==> !IsNumberJoint(joint)
    ensures r.Some? ==> r.value >= 0.0
  {
    DigitsValueAppend(whole, fraction);
    match joint
    case '.' => Some(DigitsValue(whole + fraction) as real / Pow10(|fraction|) as real)
    case '_' => Some(DigitsValue(whole + fraction) as real)
    case 'e' => Some((DigitsValue(whole) * Pow10(DigitsValue(fraction))) as real)
    case 'E' => Some((DigitsValue(whole) * Pow10(DigitsValue(fraction))) as real)
    case _ => None
  }

  /**
   * `float(token)`: `None` stands for the `ValueError` it raises.
   */
  function ToFloat(token: string): (r: Option<real>)
    requires LineParser.IsTimeToken(token)
    ensures r.None? <==> exists k :: 0 <= k < |token| && !IsNumberJoint(token[k])
    ensures r.Some? ==> r.value >= 0.0
  {
    var m := LeadingDigits(token);
    TokenJoint(token);
    if m == |token| then
      assert forall k :: 0 <= k < |token| ==> IsDigit(token[..m][k]);
      Some(DigitsValue(token) as real)
    else
      var whole, fraction := token[..m], token[m + 1..];
      assert forall k :: 0 <= k < |token| && k != m ==> IsDigit(token[k]) by {
        forall k | 0 <= k < |token| && k != m ensures IsDigit(token[k]) {
          if k < m { assert token[k] == whole[k]; } else { assert token[k] == fraction[k - m - 1]; }
        }
      }
      JointValue(whole, token[m], fraction)
  }

  lemma AllDigitsAppend(a: string, b: string)
    requires AllDigits(a) && AllDigits(b)
    ensures AllDigits(a + b)
  {
    forall k | 0 <= k < |a + b| ensures IsDigit((a + b)[k]) {
      if k >= |a| { assert (a + b)[k] == b[k - |a|]; }
    }
  }

  /** Appending digits shifts the value of the front by their number. */
  lemma {:induction false} DigitsValueAppend(a: string, b: string)
    requires AllDigits(a) && AllDigits(b)
    ensures AllDigits(a + b)
    ensures DigitsValue(a + b) == DigitsValue(a) * Pow10(|b|) + DigitsValue(b)
    decreases |b|
  {
    AllDigitsAppend(a, b);
    if b != [] {
      var b', d := b[..|b| - 1], b[|b| - 1];
      assert AllDigits(b') by { forall k | 0 <= k < |b'| ensures IsDigit(b'[k]) { assert b'[k] == b[k]; } }
      assert (a + b)[..|a + b| - 1] == a + b' && (a + b)[|a + b| - 1] == d;
      DigitsValueAppend(a, b');
      assert DigitsValue(a + b) == DigitsValue(a + b') * 10 + DigitValue(d);
      assert DigitsValue(b) == DigitsValue(b') * 10 + DigitValue(d);
      ShiftDigit(DigitsValue(a), Pow10(|b'|), DigitsValue(b'), DigitValue(d));
    } else {
      assert a + b == a;
    }
  }

  lemma ShiftDigit(x: nat, p: nat, y: nat, d: nat)
    ensures (x * p + y) * 10 + d == x * (10 * p) + (y * 10 + d)
  {
  }

  lemma {:induction false} DigitsValueBelow(s: string)
    requires AllDigits(s)
    ensures DigitsValue(s) < Pow10(|s|)
  {
    if s != [] {
      DigitsValueBelow(s[..|s| - 1]);
    }
  }

  /** A token with a joint that is not a digit splits at that joint. */
  lemma JointToken(whole: string, joint: char, fraction: string)
    requires 0 < |whole| && 0 < |fraction| && AllDigits(whole) && AllDigits(fraction)
    requires joint != '\n' && !IsDigit(joint)
    ensures LineParser.IsTimeToken(whole + [joint] + fraction)
    ensures ToFloat(whole + [joint] + fraction) == JointValue(whole, joint, fraction)
  {
    var token := whole + [joint] + fraction;
    assert token[..|whole|] == whole && token[|whole| + 1..] == fraction && token[|whole|] == joint;
    LeadingDigitsAt(token, |whole|);
  }

  /**
   * A decimal token reads as its whole part plus its fraction digits over
   * ten to their number, which puts it between the whole part and the
   * next integer; with an underscore in place of the point it reads as the
   * integer all its digits spell.
   */
  lemma DecimalToken(whole: string, fraction: string)
    requires 0 < |whole| && 0 < |fraction| && AllDigits(whole) && AllDigits(fraction)
    ensures LineParser.IsTimeToken(whole + "." + fraction) && ToFloat(whole + "." + fraction).Some?
    ensures var v := ToFloat(whole + "." + fraction).value;
            && v == DigitsValue(whole) as real + DigitsValue(fraction) as real / Pow10(|fraction|) as real
            && DigitsValue(whole) as real <= v < DigitsValue(whole) as real + 1.0
    ensures LineParser.IsTimeToken(whole + "_" + fraction) && AllDigits(whole + fraction)
    ensures ToFloat(whole + "_" + fraction) == Some(DigitsValue(whole + fraction) as real)
  {
    JointToken(whole, '.', fraction);
    JointToken(whole, '_', fraction);
    DigitsValueAppend(whole, fraction);
    DigitsValueBelow(fraction);
    var p := Pow10(|fraction|);
    var w, f := DigitsValue(whole), DigitsValue(fraction);
    SplitRatio(w, f, p);
  }

  lemma SplitRatio(w: nat, f: nat, p: nat)
    requires f < p
    ensures (w * p + f) as real / p as real == w as real + f as real / p as real
    ensures w as real <= (w * p + f) as real / p as real < w as real + 1.0
  {
    var pr := p as real;
    assert (w * p + f) as real == w as real * pr + f as real;
    assert (w as real * pr + f as real) / pr == w as real + f as real / pr;
    assert f as real / pr < 1.0;
  }

  /** With an exponent mark the value is the mantissa times a power of ten. */
  lemma ExponentToken(whole: string, mark: char, exponent: string)
    requires 0 < |whole| && 0 < |exponent| && AllDigits(whole) && AllDigits(exponent)
    requires mark == 'e' || mark == 'E'
    ensures LineParser.IsTimeToken(whole + [mark] + exponent)
    ensures ToFloat(whole + [mark] + exponent) == Some((DigitsValue(whole) * Pow10(DigitsValue(exponent))) as real)
  {
    JointToken(whole, mark, exponent);
  }

  /** Any other joint, a letter or a comma say, makes `float` raise. */
  lemma OtherJointRaises(whole: string, joint: char, fraction: string)
    requires 0 < |whole| && 0 < |fraction| && AllDigits(whole) && AllDigits(fraction)
    requires joint != '\n' && !IsNumberJoint(joint)
    ensures LineParser.IsTimeToken(whole + [joint] + fraction)
    ensures ToFloat(whole + [joint] + fraction) == None
  {
    JointToken(whole, joint, fraction);
  }

  /** A token of digits only (the pattern's `.` matched a digit) reads as an integer. */
  lemma DigitToken(token: string)
    requires |token| >= 3 && AllDigits(token)
    ensures LineParser.IsTimeToken(token) && ToFloat(token) == Some(DigitsValue(token) as real)
  {
    assert AllDigits(token[..1]) && AllDigits(token[2..]) by {
      assert token[..1][0] == token[0];
      forall k | 0 <= k < |token[2..]| ensures IsDigit(token[2..][k]) { assert token[2..][k] == token[k + 2]; }
    }
    assert token[1] != '\n' by { assert IsDigit(token[1]); }
    LeadingDigitsAt(token, |token|);
  }

  /** The value of a decimal token, with the digit values given. */
  lemma DecimalTokenValue(whole: string, fraction: string, w: nat, f: nat, p: nat)
    requires 0 < |whole| && 0 < |fraction| && AllDigits(whole) && AllDigits(fraction)
    requires DigitsValue(whole) == w && DigitsValue(fraction) == f && Pow10(|fraction|) == p
    ensures LineParser.IsTimeToken(whole + "." + fraction)
    ensures ToFloat(whole + "." + fraction) == Some(w as real + f as real / p as real)
  {
    DecimalToken(whole, fraction);
  }

  lemma TestTimeDigits()
    ensures AllDigits("39") && DigitsValue("39") == 39
    ensures AllDigits("023") && DigitsValue("023") == 23 && Pow10(3) == 1000
  {
  }

  lemma FiveDigits()
    ensures AllDigits("5") && DigitsValue("5") == 5
    ensures AllDigits("0") && DigitsValue("0") == 0 && Pow10(1) == 10
  {
  }

  /** `float('39.023')`, the time of the sample log line. */
  lemma FloatOfTestTime()
    ensures LineParser.IsTimeToken("39" + "." + "023") && ToFloat("39" + "." + "023") == Some(39.023)
  {
    TestTimeDigits();
    DecimalTokenValue("39", "023", 39, 23, 1000);
  }

  lemma FloatOfFive()
    ensures LineParser.IsTimeToken("5" + "." + "0") && ToFloat("5" + "." + "0") == Some(5.0)
  {
    FiveDigits();
    DecimalTokenValue("5", "0", 5, 0, 10);
  }

  lemma FloatOfLetterJoint()
    ensures LineParser.IsTimeToken("12" + ['a'] + "34") && ToFloat("12" + ['a'] + "34") == None
  {
    OtherJointRaises("12", 'a', "34");
  }
}
