/** The "MM:SS" time labels of the control bar: `snprintf` with format
    "%02d:%02d" of the minutes and seconds of a count of seconds. */
module TimeFormat {
  import opened CArith

  datatype Option<T> = None | Some(value: T)

  predicate IsDigit(c: char)
  {
    '0' <= c <= '9'
  }

  predicate AllDigits(s: seq<char>)
  {
    forall i :: 0 <= i < |s| ==> IsDigit(s[i])
  }

  function DigitChar(d: int): (c: char)
    requires 0 <= d < 10
    ensures IsDigit(c) && c as int - '0' as int == d
  {
    ('0' as int + d) as char
  }

  /** The value of a string of decimal digits, most significant first. */
  function Value(s: seq<char>): nat
    requires AllDigits(s)
  {
    if s == [] then 0 else 10 * Value(s[..|s| - 1]) + (s[|s| - 1] as int - '0' as int)
  }

  function Pow10(k: nat): nat
  {
    if k == 0 then 1 else 10 * Pow10(k - 1)
  }

  /** The decimal numeral of `v` as `%d` prints it: at least one digit and
      no leading zero. */
  function Digits(v: nat): (s: seq<char>)
    ensures 1 <= |s| && AllDigits(s)
    ensures 0 < v ==> s[0] != '0'
    ensures v == 0 ==> s == "0"
  {
    if v < 10 then [DigitChar(v)] else Digits(v / 10) + [DigitChar(v % 10)]
  }

  /** Reading a numeral back gives the number. */
  lemma {:induction false} ValueOfDigits(v: nat)
    ensures Value(Digits(v)) == v
  {
    if 10 <= v {
      ValueOfDigits(v / 10);
      var s := Digits(v);
      assert s[..|s| - 1] == Digits(v / 10);
    }
  }

  /** A number below 10^k has at most k digits. */
  lemma {:induction false} DigitsLength(v: nat, k: nat)
    requires 1 <= k && v < Pow10(k)
    ensures |Digits(v)| <= k
  {
    if 10 <= v {
      assert Pow10(k) == 10 * Pow10(k - 1);
      DigitsLength(v / 10, k - 1);
    }
  }

  /** `%02d`: a decimal numeral zero-padded to two characters; a negative
      number is printed as '-' and its magnitude, already two wide. */
  function Pad2(v: int): (s: seq<char>)
    ensures 2 <= |s| && ':' !in s
    ensures 0 <= v ==> AllDigits(s) && Value(s) == v
    ensures 0 <= v < 100 <==> |s| == 2 && AllDigits(s)
    ensures v < 0 ==> s[0] == '-' && AllDigits(s[1..]) && Value(s[1..]) == -v
    // zero padding only up to two characters, and never after the sign
    ensures 10 <= v ==> s[0] != '0'
    ensures v < 0 ==> s[1] != '0'
  {
    ValueOfDigits(if v < 0 then -v else v);
    if v < 0 then
      var s := ['-'] + Digits(-v);
      assert s[1..] == Digits(-v);
      s
    else if v < 10 then
      var s := ['0'] + Digits(v);
      assert s[..1] == ['0'];
      s
    else
      assert 100 <= v ==> 3 <= |Digits(v)| by {
        if 100 <= v {
          assert |Digits(v / 10)| >= 2;
        }
      }
      Digits(v)
  }

  /** `%02d` of `v` with |v| < 10^k is at most k + 1 characters long. */
  lemma Pad2Length(v: int, k: nat)
    requires 1 <= k && -(Pow10(k) as int) < v < Pow10(k)
    ensures |Pad2(v)| <= k + 1
  {
    if v < 0 {
      DigitsLength(-v, k);
    } else if 10 <= v {
      DigitsLength(v, k);
    }
  }

  /** formatTime: minutes and seconds of `sec` (C division and remainder),
      each printed with `%02d`, joined by a colon. */
  function FormatTime(sec: int): (t: seq<char>)
    ensures 0 <= sec < 6000 ==> |t| == 5 && t[2] == ':'
  {
    Pad2(TruncDiv(sec, 60)) + [':'] + Pad2(TruncRem(sec, 60))
  }

  /** The position of the first ':' in `t`, or |t| when there is none. */
  function ColonAt(t: seq<char>): (k: nat)
    ensures k <= |t|
    ensures k < |t| ==> t[k] == ':'
    ensures forall j :: 0 <= j < k ==> t[j] != ':'
  {
    if t == [] || t[0] == ':' then 0 else 1 + ColonAt(t[1..])
  }

  /** Reading a label back: minutes (two or more digits), a colon, and
      exactly two digits of seconds below 60. */
  function ParseTime(t: seq<char>): Option<nat>
  {
    var k := ColonAt(t);
    if k == |t| then None
    else
      var mm, ss := t[..k], t[k + 1..];
      if 2 <= |mm| && |ss| == 2 && AllDigits(mm) && AllDigits(ss) && Value(ss) < 60
      then Some(60 * Value(mm) + Value(ss))
      else None
  }

  /** Below 100 minutes the label is "MM:SS": two digits of minutes, two
      digits of seconds in 00..59, and together they give `sec` back. */
  lemma FormatTimeFields(sec: int)
    requires 0 <= sec < 6000
    ensures var t := FormatTime(sec);
      AllDigits(t[..2]) && AllDigits(t[3..]) && Value(t[3..]) < 60 &&
      60 * Value(t[..2]) + Value(t[3..]) == sec
  {
    var m, s := TruncDiv(sec, 60), TruncRem(sec, 60);
    var t := FormatTime(sec);
    assert t[..2] == Pad2(m);
    assert t[3..] == Pad2(s);
  }

  /** Every non-negative count of seconds is read back from its label. */
  lemma ParseFormatTime(sec: nat)
    ensures ParseTime(FormatTime(sec)) == Some(sec)
  {
    var m, s := TruncDiv(sec, 60), TruncRem(sec, 60);
    var a, b := Pad2(m), Pad2(s);
    var t := FormatTime(sec);
    assert t == a + [':'] + b;
    var k := ColonAt(t);
    assert t[|a|] == ':';
    assert k == |a|;
    assert t[..k] == a;
    assert t[k + 1..] == b;
  }

  /** For every 32-bit `sec` the label has at most 13 characters, so the
      16-byte buffer given to snprintf never truncates it. */
  lemma FormatTimeFitsBuffer(sec: int)
    requires -0x8000_0000 <= sec < 0x8000_0000
    ensures |FormatTime(sec)| <= 13 < 16
  {
    var m, s := TruncDiv(sec, 60), TruncRem(sec, 60);
    assert Pow10(8) == 100_000_000 by {
      assert Pow10(1) == 10;
      assert Pow10(2) == 100;
      assert Pow10(4) == 10000 by { assert Pow10(3) == 1000; }
      assert Pow10(6) == 1000000 by { assert Pow10(5) == 100000; }
      assert Pow10(7) == 10000000;
    }
    Pad2Length(m, 8);
    assert Pow10(2) == 100 by { assert Pow10(1) == 10; }
    Pad2Length(s, 2);
  }

  /** The two labels of the running program. */
  lemma FormatTimeExamples()
    ensures FormatTime(83) == "01:23"
    ensures FormatTime(296) == "04:56"
  {
  }
}
