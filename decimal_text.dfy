/**
  Decimal text for the store's counters: FormatInt plays the part of
  fmt.Sprintf("%d", n) and ParseInt the part of fmt.Sscanf(s, "%d", &n)
  as Increment uses them (datastructure/string.go:90, 99, 109).

  ParseInt is strict: an optional '-' followed by one or more decimal
  digits and nothing else. Integers are unbounded.
 */
module DecimalText {

  datatype Option<T> = None | Some(value: T)

  predicate IsDigit(c: char) {
    '0' <= c <= '9'
  }

  /** One or more decimal digits and nothing else. */
  predicate IsDigits(s: string) {
    |s| > 0 && forall i :: 0 <= i < |s| ==> IsDigit(s[i])
  }

  /** The text ParseInt accepts: an optional minus sign, then digits. */
  predicate IsIntText(s: string) {
    IsDigits(s) || (|s| > 0 && s[0] == '-' && IsDigits(s[1..]))
  }

  function DigitValue(c: char): (d: nat)
    requires IsDigit(c)
    ensures d < 10
  {
    c as int - '0' as int
  }

  function DigitChar(d: nat): (c: char)
    requires d < 10
    ensures IsDigit(c) && DigitValue(c) == d
  {
    ('0' as int + d) as char
  }

  /** The decimal digits of n, most significant first, without leading zeros. */
  function FormatNat(n: nat): (s: string)
    ensures IsDigits(s)
    ensures s[0] == '0' ==> n == 0
  {
    if n < 10 then [DigitChar(n)] else FormatNat(n / 10) + [DigitChar(n % 10)]
  }

  /** fmt.Sprintf("%d", n): a minus sign for negative numbers, then the digits. */
  function FormatInt(n: int): (s: string)
    ensures IsIntText(s)
    ensures s[0] == '-' <==> n < 0
  {
    if n < 0 then "-" + FormatNat(-n) else FormatNat(n)
  }

  /** The value of a run of decimal digits, read left to right. */
  function ParseDigits(s: string): (r: Option<nat>)
    ensures r.Some? <==> IsDigits(s)
  {
    if |s| == 0 || !IsDigit(s[|s| - 1]) then None
    else if |s| == 1 then Some(DigitValue(s[0]))
    else
      match ParseDigits(s[..|s| - 1])
      case None => None
      case Some(high) => Some(high * 10 + DigitValue(s[|s| - 1]))
  }

  /** fmt.Sscanf(s, "%d", &n): None stands for the scan error. */
  function ParseInt(s: string): (r: Option<int>)
    ensures r.Some? <==> IsIntText(s)
  {
    if |s| > 0 && s[0] == '-' then
      match ParseDigits(s[1..])
      case None => None
      case Some(magnitude) => Some(-(magnitude as int))
    else
      match ParseDigits(s)
      case None => None
      case Some(magnitude) => Some(magnitude)
  }

  lemma {:induction false} ParseFormatNat(n: nat)
    ensures ParseDigits(FormatNat(n)) == Some(n)
  {
    if n >= 10 {
      var high := FormatNat(n / 10);
      var s := high + [DigitChar(n % 10)];
      assert s[..|s| - 1] == high;
      ParseFormatNat(n / 10);
    }
  }

  /** Reading back what Sprintf wrote gives the number that was written. */
  lemma {:induction false} ParseFormatInt(n: int)
    ensures ParseInt(FormatInt(n)) == Some(n)
  {
    if n < 0 {
      var s := FormatInt(n);
      assert s[1..] == FormatNat(-n);
      ParseFormatNat(-n);
    } else {
      ParseFormatNat(n);
    }
  }

  /** Distinct numbers are written as distinct text. */
  lemma FormatIntInjective(a: int, b: int)
    requires FormatInt(a) == FormatInt(b)
    ensures a == b
  {
    ParseFormatInt(a);
    ParseFormatInt(b);
  }

  // ---------------------------------------------------------------------
  // What number a digit text means, for any text, not only text that
  // FormatInt wrote (Set may store "007" or "-0").
  // ---------------------------------------------------------------------

  function Pow10(n: nat): (p: nat)
    ensures p >= 1
  {
    if n == 0 then 1 else 10 * Pow10(n - 1)
  }

  /** Positional value of a digit run: each digit times ten to its place. */
  function PlaceValue(s: string): nat
    requires forall i :: 0 <= i < |s| ==> IsDigit(s[i])
  {
    if |s| == 0 then 0 else DigitValue(s[0]) * Pow10(|s| - 1) + PlaceValue(s[1..])
  }

  lemma {:induction false} PlaceValueAppend(s: string, c: char)
    requires forall i :: 0 <= i < |s| ==> IsDigit(s[i])
    requires IsDigit(c)
    ensures PlaceValue(s + [c]) == PlaceValue(s) * 10 + DigitValue(c)
  {
    if |s| > 0 {
      assert (s + [c])[1..] == s[1..] + [c];
      PlaceValueAppend(s[1..], c);
      calc {
        PlaceValue(s + [c]);
        DigitValue(s[0]) * Pow10(|s|) + PlaceValue(s[1..] + [c]);
        DigitValue(s[0]) * Pow10(|s| - 1) * 10 + PlaceValue(s[1..]) * 10 + DigitValue(c);
      }
    } else {
      assert s + [c] == [c];
    }
  }

  /** Reading digits left to right gives their positional value. */
  lemma {:induction false} ParseDigitsPlaceValue(s: string)
    requires IsDigits(s)
    ensures ParseDigits(s) == Some(PlaceValue(s))
  {
    if |s| > 1 {
      var front := s[..|s| - 1];
      ParseDigitsPlaceValue(front);
      assert s == front + [s[|s| - 1]];
      PlaceValueAppend(front, s[|s| - 1]);
    } else {
      assert s[1..] == [];
    }
  }

  /** Sscanf reads a number's text by place value, after an optional minus sign. */
  lemma ParseIntValue(s: string)
    requires IsIntText(s)
    ensures ParseInt(s) == Some(if s[0] == '-' then -(PlaceValue(s[1..]) as int) else PlaceValue(s))
  {
    if s[0] == '-' {
      ParseDigitsPlaceValue(s[1..]);
    } else {
      ParseDigitsPlaceValue(s);
    }
  }

  /** Leading zeros do not change the value: "007" reads as 7. */
  lemma ParseLeadingZero(s: string)
    requires IsDigits(s)
    ensures ParseDigits("0" + s) == ParseDigits(s)
  {
    var t := "0" + s;
    assert IsDigits(t) by {
      assert forall i :: 0 < i < |t| ==> t[i] == s[i - 1];
    }
    ParseDigitsPlaceValue(s);
    ParseDigitsPlaceValue(t);
    PlaceValueLeadingZero(s);
  }

  lemma PlaceValueLeadingZero(s: string)
    requires forall i :: 0 <= i < |s| ==> IsDigit(s[i])
    ensures forall i :: 0 <= i < |"0" + s| ==> IsDigit(("0" + s)[i])
    ensures PlaceValue("0" + s) == PlaceValue(s)
  {
  }

  /** Sscanf on text Set may store: "007" is 7 and "-0" is 0. */
  lemma ParseIntNonCanonical()
    ensures ParseInt("007") == Some(7) && ParseInt("-0") == Some(0)
  {
    assert "0" + "7" == "07" && "0" + "07" == "007";
    ParseLeadingZero("7");
    ParseLeadingZero("07");
    assert "-0"[1..] == "0";
  }

  /**
    The other direction of the round trip: digit text without leading
    zeros is exactly what FormatNat writes for its value.
   */
  lemma {:induction false} FormatParseDigits(s: string)
    requires IsDigits(s) && (|s| == 1 || s[0] != '0')
    ensures FormatNat(ParseDigits(s).value) == s
  {
    if |s| > 1 {
      var front := s[..|s| - 1];
      var c := s[|s| - 1];
      FormatParseDigits(front);
      var high := ParseDigits(front).value;
      var n := high * 10 + DigitValue(c);
      assert ParseDigits(s) == Some(n);
      assert high != 0;
      assert n / 10 == high && n % 10 == DigitValue(c);
      assert DigitChar(DigitValue(c)) == c;
      assert s == front + [c];
    }
  }

  /**
    The other direction of the round trip for signed text: integer text
    without leading zeros, and without "-0", is exactly what FormatInt
    writes for its value.
   */
  lemma FormatParseInt(s: string)
    requires IsIntText(s)
    requires s[0] != '-' ==> |s| == 1 || s[0] != '0'
    requires s[0] == '-' ==> s[1] != '0'
    ensures FormatInt(ParseInt(s).value) == s
  {
    if s[0] == '-' {
      var digits := s[1..];
      FormatParseDigits(digits);
      var magnitude := ParseDigits(digits).value;
      assert magnitude != 0;
      assert ParseInt(s) == Some(-(magnitude as int));
      assert s == "-" + digits;
    } else {
      FormatParseDigits(s);
    }
  }
}
