/**
 * Source positions and the issues a check emits, plus the decimal rendering of
 * integers that issue messages use (Java's `"" + n` on an `int`).
 */
module Issues {
  import opened Wrappers

  /** A token position: 1-based line, 0-based column (as SyntaxToken.line() / column()). */
  datatype Pos = Pos(line: int, column: int)

  /** Where an issue is anchored: a whole line, or a tree (identified by its first token). */
  datatype Location = OnLine(line: int) | OnTree(at: Pos)

  /** A secondary location, carrying its own message. */
  datatype Secondary = Secondary(message: string, at: Pos)

  /** An issue: primary location, message and the ordered secondary locations. */
  datatype Issue = Issue(location: Location, message: string, secondaries: seq<Secondary>)

  predicate IsDigit(c: char) { '0' <= c <= '9' }

  predicate AllDigits(s: string) { forall i :: 0 <= i < |s| ==> IsDigit(s[i]) }

  function DigitChar(d: nat): (c: char)
    requires d < 10
    ensures IsDigit(c)
  {
    ('0' as int + d) as char
  }

  function DigitValue(c: char): nat
    requires IsDigit(c)
  {
    c as int - '0' as int
  }

  /** The decimal digits of `n`, most significant first, without leading zeros. */
  function NatToString(n: nat): string
    decreases n
  {
    if n < 10 then [DigitChar(n)] else NatToString(n / 10) + [DigitChar(n % 10)]
  }

  /** Java's `Integer.toString`: a minus sign before the digits of a negative number. */
  function IntToString(i: int): string
  {
    if i < 0 then "-" + NatToString(-i) else NatToString(i)
  }

  /** The value of a string of decimal digits. */
  function DigitsValue(s: string): nat
    requires AllDigits(s)
  {
    if s == [] then 0 else DigitsValue(s[..|s| - 1]) * 10 + DigitValue(s[|s| - 1])
  }

  /** Reads back an optionally signed decimal integer; None when `s` is not one. */
  function ParseInt(s: string): Option<int>
  {
    if |s| >= 2 && s[0] == '-' && AllDigits(s[1..]) then Some(-(DigitsValue(s[1..]) as int))
    else if |s| >= 1 && AllDigits(s) then Some(DigitsValue(s) as int)
    else None
  }

  /** The rendering of a natural number is a non-empty digit string without a leading zero. */
  lemma {:induction false} NatToStringDigits(n: nat)
    ensures |NatToString(n)| >= 1 && AllDigits(NatToString(n))
    ensures |NatToString(n)| > 1 ==> NatToString(n)[0] != '0'
    decreases n
  {
    if n >= 10 {
      NatToStringDigits(n / 10);
      var s := NatToString(n / 10);
      var t := s + [DigitChar(n % 10)];
      assert NatToString(n) == t;
      assert t[0] == s[0];
      assert forall i :: 0 <= i < |t| ==> IsDigit(t[i]) by {
        forall i | 0 <= i < |t| ensures IsDigit(t[i]) {
          if i < |s| { assert t[i] == s[i]; }
        }
      }
    }
  }

  /** The rendering of an integer is non-empty and starts with a minus sign exactly when it is negative. */
  lemma IntToStringSign(i: int)
    ensures |IntToString(i)| >= 1
    ensures (IntToString(i)[0] == '-') <==> i < 0
  {
    NatToStringDigits(if i < 0 then -i else i);
  }

  lemma {:induction false} DigitsValueOfNatToString(n: nat)
    ensures AllDigits(NatToString(n)) && DigitsValue(NatToString(n)) == n
    decreases n
  {
    NatToStringDigits(n);
    if n >= 10 {
      var s := NatToString(n / 10);
      DigitsValueOfNatToString(n / 10);
      var t := s + [DigitChar(n % 10)];
      assert NatToString(n) == t;
      assert t[..|t| - 1] == s;
    }
  }

  /** Rendering an integer and reading it back gives the integer: the message names exactly `i`. */
  lemma IntToStringRoundTrip(i: int)
    ensures ParseInt(IntToString(i)) == Some(i)
  {
    if i < 0 {
      var s := IntToString(i);
      var d := NatToString(-i);
      assert s == "-" + d;
      assert s[1..] == d;
      DigitsValueOfNatToString(-i);
      NatToStringDigits(-i);
      assert s[0] == '-' && |s| >= 2 && AllDigits(s[1..]);
    } else {
      var d := NatToString(i);
      DigitsValueOfNatToString(i);
      NatToStringDigits(i);
      assert d[0] != '-';
    }
  }

  /** Appending issue lists is associative. */
  lemma AppendAssoc(a: seq<Issue>, b: seq<Issue>, c: seq<Issue>)
    ensures a + b + c == a + (b + c)
  {
  }
}
