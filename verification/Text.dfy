/** Character classes of the C locale, decimal numerals, and substring search, as the lexers
    and encoders of this project use them.  A byte string is a `string`. */
module Text {

  predicate IsDigit(c: char) { '0' <= c <= '9' }

  predicate IsAlpha(c: char) { 'a' <= c <= 'z' || 'A' <= c <= 'Z' }

  predicate IsAlnum(c: char) { IsDigit(c) || IsAlpha(c) }

  predicate IsSpace(c: char) { c == ' ' || '\t' <= c <= '\r' }

  function Upper(c: char): char {
    if 'a' <= c <= 'z' then c - 'a' + 'A' else c
  }

  // ----- Decimal numerals -----

  function Digit(d: nat): char
    requires d < 10
  {
    ['0', '1', '2', '3', '4', '5', '6', '7', '8', '9'][d]
  }

  /** `std::to_string` of an unsigned number. */
  function Digits(n: nat): (s: string)
    ensures |s| > 0
  {
    if n < 10 then [Digit(n)] else Digits(n / 10) + [Digit(n % 10)]
  }

  /** `std::to_string` of a signed number. */
  function Decimal(i: int): string {
    if i < 0 then "-" + Digits(Magnitude(i)) else Digits(Magnitude(i))
  }

  function DigitValue(c: char): nat
    requires IsDigit(c)
  {
    c as int - '0' as int
  }

  /** The number a digit string denotes, read from the left. */
  function Value(s: string): nat
    requires forall i | 0 <= i < |s| :: IsDigit(s[i])
  {
    if s == [] then 0
    else Value(s[..|s| - 1]) * 10 + DigitValue(s[|s| - 1])
  }

  lemma {:induction false} DigitsValue(n: nat)
    ensures forall i | 0 <= i < |Digits(n)| :: IsDigit(Digits(n)[i])
    ensures Value(Digits(n)) == n
  {
    DigitDenotes(n % 10);
    if n < 10 {
      assert Digits(n)[..0] == [];
    } else {
      DigitsValue(n / 10);
      assert Digits(n)[..|Digits(n)| - 1] == Digits(n / 10);
    }
  }

  lemma DigitDenotes(d: nat)
    requires d < 10
    ensures IsDigit(Digit(d)) && DigitValue(Digit(d)) == d
  {
  }

  /** Nothing here could be read as a further digit. */
  predicate NonDigitStart(s: string) { s == [] || !IsDigit(s[0]) }

  /** How many digits `s` starts with. */
  function DigitRun(s: string): nat {
    if NonDigitStart(s) then 0 else 1 + DigitRun(s[1..])
  }

  lemma {:induction false} DigitRunOf(s: string, rest: string)
    requires forall i | 0 <= i < |s| :: IsDigit(s[i])
    requires NonDigitStart(rest)
    ensures DigitRun(s + rest) == |s|
  {
    if s == [] {
      assert s + rest == rest;
    } else {
      DigitRunOf(s[1..], rest);
      assert (s + rest)[1..] == s[1..] + rest;
    }
  }

  /** A numeral followed by a non-digit can be read back in one way only. */
  lemma DigitsUnique(a: nat, b: nat, x: string, y: string)
    requires Digits(a) + x == Digits(b) + y && NonDigitStart(x) && NonDigitStart(y)
    ensures a == b && x == y
  {
    DigitsValue(a);
    DigitsValue(b);
    DigitRunOf(Digits(a), x);
    DigitRunOf(Digits(b), y);
    Cancel(Digits(a), Digits(b), x, y);
  }

  lemma SignUnique(m: bool, n: bool, s: string, t: string, x: string, y: string)
    requires s != [] && IsDigit(s[0]) && t != [] && IsDigit(t[0])
    requires (if m then "-" + s else s) + x == (if n then "-" + t else t) + y
    ensures m == n && s + x == t + y
  {
    var u := (if m then "-" + s else s) + x;
    assert u[0] == if m then '-' else s[0];
    assert u[0] == if n then '-' else t[0];
    if m {
      assert u[1..] == s + x && u[1..] == t + y;
    }
  }

  function Magnitude(i: int): nat { if i < 0 then -i else i }

  lemma DecimalUnique(a: int, b: int, x: string, y: string)
    requires Decimal(a) + x == Decimal(b) + y && NonDigitStart(x) && NonDigitStart(y)
    ensures a == b && x == y
  {
    DigitsValue(Magnitude(a));
    DigitsValue(Magnitude(b));
    SignUnique(a < 0, b < 0, Digits(Magnitude(a)), Digits(Magnitude(b)), x, y);
    DigitsUnique(Magnitude(a), Magnitude(b), x, y);
  }

  // ----- Concatenation -----

  lemma Cancel<T>(a: seq<T>, b: seq<T>, x: seq<T>, y: seq<T>)
    requires a + x == b + y && |a| == |b|
    ensures a == b && x == y
  {
    assert a == (a + x)[..|a|] && x == (a + x)[|a|..];
    assert b == (b + y)[..|b|] && y == (b + y)[|b|..];
  }

  lemma CancelHead<T>(a: seq<T>, x: seq<T>, y: seq<T>)
    requires a + x == a + y
    ensures x == y
  {
    Cancel(a, a, x, y);
  }

  lemma Assoc<T>(a: seq<T>, b: seq<T>, c: seq<T>)
    ensures a + b + c == a + (b + c)
  {
  }

  /** Of two ways to start the same text, the shorter start is a prefix of the longer. */
  lemma Overlap<T>(s: seq<T>, t: seq<T>, x: seq<T>, y: seq<T>)
    requires s + x == t + y && |s| <= |t|
    ensures t[..|s|] == s && x == t[|s|..] + y
  {
    assert t[..|s|] == (t + y)[..|s|] == (s + x)[..|s|];
    assert x == (s + x)[|s|..] == (t + y)[|s|..];
  }
}
