/** Decimal rendering of numbers and the `join` of JavaScript arrays of strings. */
module Text {

  predicate IsDigit(c: char) {
    '0' <= c <= '9'
  }

  function DigitChar(d: nat): (c: char)
    requires d < 10
    ensures IsDigit(c)
  {
    "0123456789"[d]
  }

  function DigitValue(c: char): (d: nat)
    requires IsDigit(c)
    ensures d < 10
  {
    (c as int - '0' as int) as nat
  }

  /** The decimal digits of `n`, most significant first, with no leading zero. */
  function NatToString(n: nat): (s: string)
    ensures |s| > 0
    ensures forall i :: 0 <= i < |s| ==> IsDigit(s[i])
    decreases n
  {
    if n < 10 then [DigitChar(n)] else NatToString(n / 10) + [DigitChar(n % 10)]
  }

  /** The value of a non-empty string of decimal digits. */
  function ParseNat(s: string): (n: nat)
    requires forall i :: 0 <= i < |s| ==> IsDigit(s[i])
    decreases |s|
  {
    if |s| == 0 then 0 else 10 * ParseNat(s[..|s| - 1]) + DigitValue(s[|s| - 1])
  }

  /** Reading the decimal rendering back yields the number. */
  lemma {:induction false} ParseNatToString(n: nat)
    ensures ParseNat(NatToString(n)) == n
    decreases n
  {
    var s := NatToString(n);
    if n < 10 {
      assert s[..0] == [];
    } else {
      ParseNatToString(n / 10);
      assert s[..|s| - 1] == NatToString(n / 10);
    }
  }

  /** How JavaScript turns an integer-valued number into a string. */
  function IntToString(i: int): (s: string)
    ensures |s| > 0
    ensures forall k :: 0 <= k < |s| ==> IsDigit(s[k]) || (k == 0 && s[k] == '-' && i < 0)
  {
    if i < 0 then "-" + NatToString(-i) else NatToString(i)
  }

  /** Reading back the rendering of an integer, sign included, yields the integer. */
  lemma IntToStringRoundTrip(i: int)
    ensures var s := IntToString(i);
      if s[0] == '-' then i < 0 && -(ParseNat(s[1..]) as int) == i
      else i >= 0 && ParseNat(s) == i
  {
    if i < 0 {
      NegativeRoundTrip(i);
    } else {
      ParseNatToString(i);
      assert IsDigit(NatToString(i)[0]);
    }
  }

  lemma NegativeRoundTrip(i: int)
    requires i < 0
    ensures IntToString(i)[0] == '-' && -(ParseNat(IntToString(i)[1..]) as int) == i
  {
    ParseNatToString(-i);
    assert IntToString(i)[1..] == NatToString(-i);
  }

  /** `parts.join(sep)`. */
  function Join(parts: seq<string>, sep: char): (s: string)
    decreases |parts|
  {
    if |parts| == 0 then ""
    else if |parts| == 1 then parts[0]
    else Join(parts[..|parts| - 1], sep) + [sep] + parts[|parts| - 1]
  }

  /** The join starts with the first part, and with the first part and a separator
      when more parts follow. */
  lemma {:induction false} JoinStartsWith(parts: seq<string>, sep: char)
    requires |parts| > 0
    ensures parts[0] <= Join(parts, sep)
    ensures |parts| > 1 ==> parts[0] + [sep] <= Join(parts, sep)
    decreases |parts|
  {
    if |parts| > 2 {
      var n := |parts| - 1;
      JoinStartsWith(parts[..n], sep);
      assert parts[..n][0] == parts[0];
      assert Join(parts, sep) == Join(parts[..n], sep) + ([sep] + parts[n]);
    }
  }

  /** Number of occurrences of `c` in `s`. */
  function Count(c: char, s: string): (n: nat)
    ensures n <= |s|
    ensures n == 0 <==> c !in s
    decreases |s|
  {
    if |s| == 0 then 0 else Count(c, s[..|s| - 1]) + (if s[|s| - 1] == c then 1 else 0)
  }

  lemma {:induction false} CountAppend(c: char, a: string, b: string)
    ensures Count(c, a + b) == Count(c, a) + Count(c, b)
    decreases |b|
  {
    if |b| == 0 {
      assert a + b == a;
    } else {
      CountAppend(c, a, b[..|b| - 1]);
      assert (a + b)[..|a + b| - 1] == a + b[..|b| - 1];
    }
  }

  /** Joining parts that do not contain the separator puts exactly one separator
      between consecutive parts, so the parts can be told apart again. */
  lemma {:induction false} JoinSeparators(parts: seq<string>, sep: char)
    requires |parts| > 0
    requires forall i :: 0 <= i < |parts| ==> sep !in parts[i]
    ensures Count(sep, Join(parts, sep)) == |parts| - 1
    decreases |parts|
  {
    if |parts| > 1 {
      var n := |parts| - 1;
      JoinSeparators(parts[..n], sep);
      CountAppend(sep, Join(parts[..n], sep), [sep]);
      CountAppend(sep, Join(parts[..n], sep) + [sep], parts[n]);
    }
  }

  /** When only the last part may contain the separator, the join holds one separator
      between each pair of parts plus those of the last part. */
  lemma JoinLastPartCount(parts: seq<string>, sep: char)
    requires |parts| > 1
    requires forall i :: 0 <= i < |parts| - 1 ==> sep !in parts[i]
    ensures Count(sep, Join(parts, sep)) == |parts| - 1 + Count(sep, parts[|parts| - 1])
  {
    var n := |parts| - 1;
    JoinSeparators(parts[..n], sep);
    CountAppend(sep, Join(parts[..n], sep), [sep]);
    CountAppend(sep, Join(parts[..n], sep) + [sep], parts[n]);
    assert [sep][..0] == [];
  }

  /** A character absent from every part and from the separator is absent from the join. */
  lemma {:induction false} JoinAvoids(parts: seq<string>, sep: char, c: char)
    requires c != sep
    requires forall i :: 0 <= i < |parts| ==> c !in parts[i]
    ensures c !in Join(parts, sep)
    decreases |parts|
  {
    if |parts| > 1 {
      JoinAvoids(parts[..|parts| - 1], sep, c);
    }
  }
}
