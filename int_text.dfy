/** Decimal text of integers: printf's "%d" and the digit-string to int
    conversion of boost::lexical_cast<int> (range overflow not modelled). */
module IntText {
  import opened Wrappers

  predicate IsDigit(ch: char) {
    '0' <= ch <= '9'
  }

  function DigitChar(d: nat): char
    requires d < 10
  {
    ['0', '1', '2', '3', '4', '5', '6', '7', '8', '9'][d]
  }

  function DigitValue(ch: char): nat
    requires IsDigit(ch)
  {
    (ch as int) - ('0' as int)
  }

  /** Decimal digits of a natural number, most significant first, no leading zeros. */
  function NatDigits(n: nat): string
    decreases n
  {
    if n < 10 then [DigitChar(n)] else NatDigits(n / 10) + [DigitChar(n % 10)]
  }

  /** The "%d" conversion: a minus sign for negative values, then the digits. */
  function FormatInt(i: int): string {
    if i < 0 then "-" + NatDigits(-i) else NatDigits(i)
  }

  predicate AllDigits(s: string) {
    forall k :: 0 <= k < |s| ==> IsDigit(s[k])
  }

  /** The value of a non-empty digit string. */
  function DigitsValue(s: string): nat
    requires AllDigits(s)
  {
    if |s| == 0 then 0 else DigitsValue(s[..|s| - 1]) * 10 + DigitValue(s[|s| - 1])
  }

  /** lexical_cast<int> on text made of '-' and digits: an optional leading
      minus followed by at least one digit; anything else is a bad cast. */
  function ParseInt(s: string): Option<int> {
    if |s| > 0 && AllDigits(s) then Some(DigitsValue(s) as int)
    else if |s| > 1 && s[0] == '-' && AllDigits(s[1..]) then Some(-(DigitsValue(s[1..]) as int))
    else None
  }

  lemma {:induction false} NatDigitsRoundTrip(n: nat)
    ensures |NatDigits(n)| > 0 && AllDigits(NatDigits(n))
    ensures DigitsValue(NatDigits(n)) == n
    decreases n
  {
    var s := NatDigits(n);
    if n < 10 {
      assert s == [DigitChar(n)];
      assert s[..0] == [];
    } else {
      NatDigitsRoundTrip(n / 10);
      var hd := NatDigits(n / 10);
      assert s == hd + [DigitChar(n % 10)];
      assert s[..|s| - 1] == hd;
      assert forall k :: 0 <= k < |s| ==> IsDigit(s[k]) by {
        forall k | 0 <= k < |s| ensures IsDigit(s[k]) {
          if k < |hd| { assert s[k] == hd[k]; }
        }
      }
    }
  }

  /** Parsing the "%d" text of any integer gives that integer back. */
  lemma FormatParseRoundTrip(i: int)
    ensures ParseInt(FormatInt(i)) == Some(i)
  {
    if i < 0 {
      var digits := NatDigits(-i);
      NatDigitsRoundTrip(-i);
      var s := FormatInt(i);
      assert s == "-" + digits;
      assert !AllDigits(s) by {
        assert !IsDigit(s[0]);
      }
      assert s[1..] == digits;
    } else {
      NatDigitsRoundTrip(i);
    }
  }
}
