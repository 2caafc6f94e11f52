/** Decimal text of integers, as Python's `str` produces it for an `int`,
    and the parser that reads it back. */
module Text {
  import opened Wrappers

  predicate IsDigit(c: char) {
    '0' <= c <= '9'
  }

  function DigitChar(d: nat): (c: char)
    requires d < 10
    ensures IsDigit(c) && c as int - '0' as int == d
  {
    ('0' as int + d) as char
  }

  /** `str(n)` for a non-negative integer: its decimal digits, most significant first, no leading zero. */
  function NatToString(n: nat): (s: string)
    decreases n
  {
    if n < 10 then [DigitChar(n)] else NatToString(n / 10) + [DigitChar(n % 10)]
  }

  /** `str(i)` for any integer: a minus sign for a negative value, then the digits of its magnitude. */
  function IntToString(i: int): (s: string)
  {
    if i < 0 then "-" + NatToString(-i) else NatToString(i)
  }

  /** The value of a non-empty string of decimal digits; None for anything else. */
  function ParseNat(s: string): (r: Option<nat>)
    decreases |s|
  {
    if |s| == 0 || !IsDigit(s[|s| - 1]) then None
    else if |s| == 1 then Some(s[0] as int - '0' as int)
    else match ParseNat(s[..|s| - 1])
      case None => None
      case Some(high) => Some(10 * high + (s[|s| - 1] as int - '0' as int))
  }

  /** The value of an optional minus sign followed by decimal digits; None for anything else. */
  function ParseInt(s: string): (r: Option<int>)
  {
    if |s| > 0 && s[0] == '-' then
      match ParseNat(s[1..])
      case None => None
      case Some(n) => Some(0 - n as int)
    else
      match ParseNat(s)
      case None => None
      case Some(n) => Some(n)
  }

  lemma {:induction false} NatToStringShape(n: nat)
    ensures |NatToString(n)| > 0
    ensures forall k :: 0 <= k < |NatToString(n)| ==> IsDigit(NatToString(n)[k])
    decreases n
  {
    if n >= 10 {
      NatToStringShape(n / 10);
    }
  }

  /** Every character of `str(i)` is a digit or the leading minus sign, so it never
      contains an operand separator of the assembly syntax. */
  lemma IntToStringChars(i: int)
    ensures |IntToString(i)| > 0
    ensures forall k :: 0 <= k < |IntToString(i)| ==> IsDigit(IntToString(i)[k]) || (k == 0 && i < 0 && IntToString(i)[k] == '-')
  {
    if i < 0 {
      NatToStringShape(-i);
    } else {
      NatToStringShape(i);
    }
  }

  lemma {:induction false} ParseNatToString(n: nat)
    ensures ParseNat(NatToString(n)) == Some(n)
    decreases n
  {
    var s := NatToString(n);
    if n >= 10 {
      ParseNatToString(n / 10);
      NatToStringShape(n / 10);
      assert s[..|s| - 1] == NatToString(n / 10);
    }
  }

  /** Reading back the text `str(i)` yields `i`: the decimal rendering loses nothing. */
  lemma ParseIntToString(i: int)
    ensures ParseInt(IntToString(i)) == Some(i)
  {
    var s := IntToString(i);
    if i < 0 {
      ParseNatToString(-i);
      assert s[1..] == NatToString(-i);
    } else {
      ParseNatToString(i);
      NatToStringShape(i);
    }
  }

  /** Splits `s` before the first occurrence of `c`: the text before it and the rest,
      which starts with `c` (or is empty when `c` does not occur). */
  function TakeUntil(s: string, c: char): (r: (string, string))
    ensures r.0 + r.1 == s
    ensures c !in r.0
    ensures |r.1| > 0 ==> r.1[0] == c
    decreases |s|
  {
    if |s| == 0 then ("", "")
    else if s[0] == c then ("", s)
    else
      var (front, rest) := TakeUntil(s[1..], c);
      ([s[0]] + front, rest)
  }

  /** When `c` does not occur in `a` and `b` starts with it, the split falls exactly between them. */
  lemma {:induction false} TakeUntilConcat(a: string, b: string, c: char)
    requires c !in a
    requires |b| > 0 && b[0] == c
    ensures TakeUntil(a + b, c) == (a, b)
    decreases |a|
  {
    if |a| > 0 {
      TakeUntilConcat(a[1..], b, c);
      assert (a + b)[0] == a[0] != c;
      assert (a + b)[1..] == a[1..] + b;
      assert [a[0]] + a[1..] == a;
    } else {
      assert a + b == b;
    }
  }

  lemma AppendAssoc<T>(a: seq<T>, b: seq<T>, c: seq<T>)
    ensures (a + b) + c == a + (b + c)
  {
  }
}
