/**
 * The line classifier `parseLine` (util/src/Main.java:114-124): an ordered
 * fallback that first tries `Long.parseLong`, then `Double.parseDouble`, and
 * otherwise keeps the line itself. `Long.parseLong` is modelled by its decimal
 * grammar over ASCII digits; `String.valueOf(long)` is its inverse.
 */
module Classifier {
  import opened Wrappers

  /** Long.MIN_VALUE and Long.MAX_VALUE. */
  const MinLong: int := -0x8000_0000_0000_0000
  const MaxLong: int := 0x7fff_ffff_ffff_ffff

  predicate InLongRange(v: int) {
    MinLong <= v <= MaxLong
  }

  predicate IsDigit(c: char) {
    '0' <= c <= '9'
  }

  predicate AllDigits(s: string) {
    forall i :: 0 <= i < |s| ==> IsDigit(s[i])
  }

  function DigitValue(c: char): nat
    requires IsDigit(c)
  {
    c as int - '0' as int
  }

  function DigitChar(d: nat): (c: char)
    requires d < 10
    ensures IsDigit(c) && DigitValue(c) == d
  {
    ('0' as int + d) as char
  }

  /** The value of a decimal numeral, most significant digit first. */
  function DigitsValue(s: string): nat
    requires AllDigits(s)
  {
    if |s| == 0 then 0 else 10 * DigitsValue(s[..|s| - 1]) + DigitValue(s[|s| - 1])
  }

  /** The numeral `sign + digits` denotes `v`: an optional single sign, then at least one digit. */
  predicate Numeral(sign: string, digits: string, v: int) {
    (sign == "" || sign == "+" || sign == "-") &&
    |digits| > 0 && AllDigits(digits) &&
    v == (if sign == "-" then -(DigitsValue(digits) as int) else DigitsValue(digits))
  }

  /**
   * Long.parseLong(s) in radix 10: an optional '+' or '-', then one or more
   * digits, with the value in [Long.MIN_VALUE, Long.MAX_VALUE]. Nothing is
   * trimmed, so a blank or padded string is rejected (None stands for the
   * NumberFormatException).
   */
  function ParseLong(s: string): (r: Option<int>)
    ensures r.Some? ==> InLongRange(r.value)
    ensures r.Some? ==> |s| > 0 && forall i :: 0 <= i < |s| ==> IsDigit(s[i]) || (i == 0 && (s[i] == '+' || s[i] == '-'))
  {
    if |s| == 0 then None
    else
      var digits := if s[0] == '-' || s[0] == '+' then s[1..] else s;
      if |digits| == 0 || !AllDigits(digits) then None
      else
        var v := if s[0] == '-' then -(DigitsValue(digits) as int) else DigitsValue(digits);
        if InLongRange(v) then Some(v) else None
  }

  /** The decimal numeral of a natural number, without leading zeros. */
  function NaturalToString(n: nat): (r: string)
    ensures |r| > 0 && AllDigits(r) && DigitsValue(r) == n
    ensures |r| > 1 ==> r[0] != '0'
  {
    if n < 10 then [DigitChar(n)]
    else
      var front := NaturalToString(n / 10);
      var r := front + [DigitChar(n % 10)];
      assert r[..|r| - 1] == front;
      r
  }

  /**
   * String.valueOf(long): a '-' for negative values, then the digits of the
   * magnitude, in canonical form (LongToStringRoundTrip: it reads back as
   * the same long).
   */
  function LongToString(v: int): (r: string)
    ensures IsCanonical(r)
    ensures r[0] == '-' <==> v < 0
  {
    if v < 0 then
      var r := "-" + NaturalToString(-v);
      assert r[1..] == NaturalToString(-v);
      r
    else
      var r := NaturalToString(v);
      assert IsDigit(r[0]);
      r
  }

  /** Re-reading what String.valueOf wrote gives back the same long. */
  lemma LongToStringRoundTrip(v: int)
    requires InLongRange(v)
    ensures ParseLong(LongToString(v)) == Some(v)
  {
    var s := LongToString(v);
    if v < 0 {
      assert s[1..] == NaturalToString(-v);
    }
  }

  /** The canonical form String.valueOf produces: no '+', no leading zero, no "-0". */
  predicate IsCanonical(s: string) {
    var digits := if |s| > 0 && s[0] == '-' then s[1..] else s;
    |digits| > 0 && AllDigits(digits) &&
    (|digits| > 1 ==> digits[0] != '0') &&
    (|s| > 0 && s[0] == '-' ==> digits != "0")
  }

  /** What parseLine returns, by its run-time class: a Long, a Double or the String itself. */
  datatype Parsed = Long(value: int) | Double | Text(line: string)

  /**
   * parseLine: integer first, then double, else the line unchanged. Whether
   * Double.parseDouble accepts a line is the parameter `acceptsDouble`; the
   * double's value is never used, so only its existence is kept.
   */
  function ParseLine(line: string, acceptsDouble: string -> bool): (r: Parsed)
    ensures r.Long? <==> ParseLong(line).Some?
    ensures r.Long? ==> r.value == ParseLong(line).value
    ensures r.Double? <==> ParseLong(line).None? && acceptsDouble(line)
    ensures r.Text? <==> ParseLong(line).None? && !acceptsDouble(line)
    ensures r.Text? ==> r.line == line
  {
    match ParseLong(line)
    case Some(v) => Long(v)
    case None => if acceptsDouble(line) then Double else Text(line)
  }

  /** A numeral's value does not fall below its leading digit. */
  lemma {:induction false} LeadingDigitBound(s: string)
    requires |s| > 0 && AllDigits(s)
    ensures DigitsValue(s) >= DigitValue(s[0])
  {
    if |s| > 1 {
      LeadingDigitBound(s[..|s| - 1]);
    }
  }

  /** Writing the digits of a numeral without leading zeros gives the numeral back. */
  lemma {:induction false} NaturalToStringOfDigits(d: string)
    requires |d| > 0 && AllDigits(d)
    requires |d| > 1 ==> d[0] != '0'
    ensures NaturalToString(DigitsValue(d)) == d
  {
    var n := DigitsValue(d);
    if |d| > 1 {
      var front := d[..|d| - 1];
      LeadingDigitBound(front);
      assert DigitsValue(front) >= 1;
      assert n / 10 == DigitsValue(front) && n % 10 == DigitValue(d[|d| - 1]);
      NaturalToStringOfDigits(front);
      assert d == front + [DigitChar(n % 10)];
    }
  }

  /** Conversely, a canonical numeral that parses is exactly what String.valueOf writes for it. */
  lemma CanonicalRoundTrip(s: string)
    requires IsCanonical(s) && ParseLong(s).Some?
    ensures LongToString(ParseLong(s).value) == s
  {
    var v := ParseLong(s).value;
    if s[0] == '-' {
      NaturalToStringOfDigits(s[1..]);
      assert s == "-" + s[1..];
    } else {
      NaturalToStringOfDigits(s);
    }
  }

  /**
   * A line is an integer line exactly when it is an optional sign followed by
   * digits whose value fits in a long; its value is then that numeral's value.
   */
  lemma IntegerLineExactly(line: string, v: int, acceptsDouble: string -> bool)
    ensures ParseLine(line, acceptsDouble) == Long(v) <==>
            InLongRange(v) && exists sign, digits :: line == sign + digits && Numeral(sign, digits, v)
  {
    if ParseLine(line, acceptsDouble) == Long(v) {
      IntegerLineIsNumeral(line, v);
    }
    if InLongRange(v) && exists sign, digits :: line == sign + digits && Numeral(sign, digits, v) {
      var sign, digits :| line == sign + digits && Numeral(sign, digits, v);
      NumeralIsIntegerLine(sign, digits, v);
    }
  }

  lemma IntegerLineIsNumeral(line: string, v: int)
    requires ParseLong(line) == Some(v)
    ensures line == line[..SignLength(line)] + line[SignLength(line)..]
    ensures Numeral(line[..SignLength(line)], line[SignLength(line)..], v)
  {
  }

  /** 1 when the line starts with a sign character, else 0. */
  function SignLength(line: string): nat {
    if |line| > 0 && (line[0] == '-' || line[0] == '+') then 1 else 0
  }

  lemma NumeralIsIntegerLine(sign: string, digits: string, v: int)
    requires InLongRange(v) && Numeral(sign, digits, v)
    ensures ParseLong(sign + digits) == Some(v)
  {
    var line := sign + digits;
    if sign == "" {
      assert line == digits;
      assert IsDigit(digits[0]);
    } else {
      assert line[1..] == digits;
    }
  }

  /** Padding is never trimmed: a line with a leading or trailing blank is not an integer line. */
  lemma PaddedIsNotInteger(s: string, acceptsDouble: string -> bool)
    ensures !ParseLine(" " + s, acceptsDouble).Long?
    ensures !ParseLine(s + " ", acceptsDouble).Long?
    ensures !ParseLine("", acceptsDouble).Long?
  {
    var t := s + " ";
    assert t[|t| - 1] == ' ';
    var u := " " + s;
    assert u[0] == ' ';
  }

  /** Leading zeros and a '+' disappear once a line is parsed and written back. */
  lemma NormalizedExamples()
    ensures ParseLong("007") == Some(7)
    ensures LongToString(7) == "7"
    ensures ParseLong("+5") == Some(5)
    ensures LongToString(5) == "5"
    ensures ParseLong("-17") == Some(-17)
    ensures LongToString(-17) == "-17"
    ensures ParseLong("-") == None && ParseLong("+") == None && ParseLong("4 2") == None
  {
    assert "007"[..2] == "00" && "00"[..1] == "0" && "0"[..0] == "";
    assert DigitsValue("0") == 0 && DigitsValue("00") == 0;
    assert "+5"[1..] == "5";
    assert "-17"[1..] == "17" && "17"[..1] == "1";
    assert "4 2"[1] == ' ';
  }

  /** Java's blanks: `String.trim` removes every char up to U+0020 at either end. */
  predicate IsBlank(c: char) {
    c <= ' '
  }

  predicate AllBlank(s: string) {
    forall i :: 0 <= i < |s| ==> IsBlank(s[i])
  }

  function TrimStart(s: string): (r: string)
    ensures |r| <= |s| && r == s[|s| - |r|..] && AllBlank(s[..|s| - |r|])
    ensures |r| > 0 ==> !IsBlank(r[0])
  {
    if |s| > 0 && IsBlank(s[0]) then TrimStart(s[1..]) else s
  }

  function TrimEnd(s: string): (r: string)
    ensures |r| <= |s| && r == s[..|r|] && AllBlank(s[|r|..])
    ensures |r| > 0 ==> !IsBlank(r[|r| - 1])
  {
    if |s| > 0 && IsBlank(s[|s| - 1]) then TrimEnd(s[..|s| - 1]) else s
  }

  /**
   * `String.trim`: the string without its leading and trailing blanks. The
   * result is a run of `s` with only blanks before and after it, and it
   * neither starts nor ends with a blank, which makes it the unique such run.
   */
  function Trim(s: string): (r: string)
    ensures |r| <= |s|
    ensures exists k :: 0 <= k <= |s| - |r| && r == s[k..k + |r|] && AllBlank(s[..k]) && AllBlank(s[k + |r|..])
    ensures |r| > 0 ==> !IsBlank(r[0]) && !IsBlank(r[|r| - 1])
  {
    var t := TrimStart(s);
    var r := TrimEnd(t);
    var k := |s| - |t|;
    assert s[k..k + |r|] == t[..|r|];
    assert s[k + |r|..] == t[|r|..];
    r
  }

  /** An optional sign and one or more digits, whatever their value. */
  predicate SignedDigits(t: string) {
    var digits := if |t| > 0 && (t[0] == '+' || t[0] == '-') then t[1..] else t;
    |digits| > 0 && AllDigits(digits)
  }

  /**
   * What Double.parseDouble does at least: it rejects the empty string, and
   * after trimming blanks it accepts every optionally signed digit string,
   * however large its value.
   */
  ghost predicate ParsesLikeDouble(acceptsDouble: string -> bool) {
    !acceptsDouble("") && forall s :: SignedDigits(Trim(s)) ==> acceptsDouble(s)
  }

  /** The hypothesis is met by a parser that accepts exactly the trimmed signed digit strings. */
  lemma ParsesLikeDoubleSatisfiable()
    ensures ParsesLikeDouble(s => SignedDigits(Trim(s)))
  {
  }

  lemma {:induction false} TrimStartBlanks(pre: string, t: string)
    requires AllBlank(pre) && |t| > 0 && !IsBlank(t[0])
    ensures TrimStart(pre + t) == t
  {
    if pre == [] {
      assert pre + t == t;
    } else {
      assert (pre + t)[1..] == pre[1..] + t;
      TrimStartBlanks(pre[1..], t);
    }
  }

  lemma {:induction false} TrimEndBlanks(t: string, post: string)
    requires AllBlank(post) && |t| > 0 && !IsBlank(t[|t| - 1])
    ensures TrimEnd(t + post) == t
  {
    if post == [] {
      assert t + post == t;
    } else {
      var u := t + post;
      assert u[..|u| - 1] == t + post[..|post| - 1];
      TrimEndBlanks(t, post[..|post| - 1]);
    }
  }

  /** Trimming blanks around a numeral gives the numeral back. */
  lemma TrimPadded(pre: string, t: string, post: string)
    requires AllBlank(pre) && AllBlank(post) && SignedDigits(t)
    ensures Trim(pre + t + post) == t
  {
    assert !IsBlank(t[0]) && !IsBlank(t[|t| - 1]);
    assert pre + t + post == pre + (t + post);
    TrimStartBlanks(pre, t + post);
    TrimEndBlanks(t, post);
  }

  /** The empty line is neither a long nor a double, so it is a string line. */
  lemma EmptyLineIsString(acceptsDouble: string -> bool)
    requires ParsesLikeDouble(acceptsDouble)
    ensures ParseLine("", acceptsDouble) == Text("")
  {
  }

  /**
   * A signed digit string is never a string line: it is a long when its
   * value fits and a double otherwise.
   */
  lemma SignedDigitsNeverText(line: string, acceptsDouble: string -> bool)
    requires ParsesLikeDouble(acceptsDouble) && SignedDigits(line)
    ensures ParseLine(line, acceptsDouble).Long? || ParseLine(line, acceptsDouble) == Double
    ensures ParseLong(line).None? ==> ParseLine(line, acceptsDouble) == Double
  {
    TrimPadded("", line, "");
    assert "" + line + "" == line;
  }

  /** `Long.parseLong` does not trim: a line starting or ending with a blank is refused. */
  lemma BlankEndNotLong(line: string)
    requires |line| > 0 && (IsBlank(line[0]) || IsBlank(line[|line| - 1]))
    ensures ParseLong(line).None?
  {
  }

  /**
   * A numeral with blanks before or after it is never a long (nothing is
   * trimmed) but always a double (Double.parseDouble trims).
   */
  lemma PaddedNumeralIsDouble(pre: string, t: string, post: string, acceptsDouble: string -> bool)
    requires ParsesLikeDouble(acceptsDouble) && SignedDigits(t)
    requires AllBlank(pre) && AllBlank(post) && |pre| + |post| > 0
    ensures ParseLine(pre + t + post, acceptsDouble) == Double
  {
    var line := pre + t + post;
    if |pre| > 0 {
      assert line[0] == pre[0];
    } else {
      assert line[|line| - 1] == post[|post| - 1];
    }
    BlankEndNotLong(line);
    TrimPadded(pre, t, post);
    assert SignedDigits(Trim(line));
  }
}
