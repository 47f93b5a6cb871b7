/** Text forms the services exchange: UUID strings, Go's `%d` / `strconv.Itoa`
    rendering of integers and `strconv.Atoi`, and strings joined by a bar. */
module Text {

  const INT64_MAX := 0x7FFF_FFFF_FFFF_FFFF

  predicate IsHexDigit(c: char) {
    '0' <= c <= '9' || 'a' <= c <= 'f'
  }

  predicate IsUuid(s: string) {
    |s| == 36 && forall c | c in s :: IsHexDigit(c) || c == '-'
  }

  /** The canonical form of a UUID: hexadecimal groups and dashes. */
  type Uuid = s: string | IsUuid(s)
    witness "00000000-0000-0000-0000-000000000000"

  predicate IsDigit(c: char) {
    '0' <= c <= '9'
  }

  predicate AllDigits(s: string) {
    |s| > 0 && forall i | 0 <= i < |s| :: IsDigit(s[i])
  }

  function DigitChar(d: nat): (c: char)
    requires d < 10
    ensures IsDigit(c) && DigitValue(c) == d
  {
    ('0' as int + d) as char
  }

  function DigitValue(c: char): (d: nat)
    requires IsDigit(c)
    ensures d < 10
  {
    c as int - '0' as int
  }

  function Digits(n: nat): (s: string)
    ensures AllDigits(s)
  {
    if n < 10 then [DigitChar(n)] else Digits(n / 10) + [DigitChar(n % 10)]
  }

  /** `fmt.Sprintf("%d", n)` and `strconv.Itoa(n)`. */
  function Decimal(n: int): (s: string) {
    if n < 0 then "-" + Digits(-n) else Digits(n)
  }

  function NatValue(s: string): nat
    requires AllDigits(s)
  {
    var rest := s[..|s| - 1];
    var last := DigitValue(s[|s| - 1]);
    if |s| == 1 then last else 10 * NatValue(rest) + last
  }

  datatype Option<+T> = None | Some(value: T)

  /** `strconv.Atoi`: an optional sign, then digits only, in the 64-bit range. */
  function Atoi(s: string): Option<int> {
    var negative := |s| > 0 && s[0] == '-';
    var body := if negative || (|s| > 0 && s[0] == '+') then s[1..] else s;
    if !AllDigits(body) then None
    else
      var v: int := if negative then 0 - NatValue(body) else NatValue(body);
      if -INT64_MAX - 1 <= v <= INT64_MAX then Some(v) else None
  }

  lemma {:induction false} NatValueOfDigits(n: nat)
    ensures NatValue(Digits(n)) == n
  {
    if n >= 10 {
      NatValueOfDigits(n / 10);
      assert Digits(n)[..|Digits(n)| - 1] == Digits(n / 10);
    }
  }

  /** Reading back what was printed. */
  lemma AtoiOfDecimal(n: int)
    requires -INT64_MAX - 1 <= n <= INT64_MAX
    ensures Atoi(Decimal(n)) == Some(n)
  {
    var m: nat := if n < 0 then -n else n;
    NatValueOfDigits(m);
    assert IsDigit(Digits(m)[0]);
    if n < 0 {
      assert Decimal(n)[1..] == Digits(m);
    }
  }

  /** Two different integers never print alike. */
  lemma DecimalInjective(m: int, n: int)
    requires Decimal(m) == Decimal(n)
    ensures m == n
  {
    NatValueOfDigits(if m < 0 then -m else m);
    NatValueOfDigits(if n < 0 then -n else n);
    assert IsDigit(Digits(if m < 0 then -m else m)[0]);
    assert IsDigit(Digits(if n < 0 then -n else n)[0]);
    if m < 0 && n < 0 {
      assert Decimal(m)[1..] == Digits(-m);
      assert Decimal(n)[1..] == Digits(-n);
    }
  }

  predicate NoBar(s: string) {
    '|' !in s
  }

  lemma DecimalHasNoBar(n: int)
    ensures NoBar(Decimal(n))
  {}

  /** Two fields of a `%s|%s` text. */
  function Bar(left: string, right: string): string {
    left + "|" + right
  }

  /** Cutting at the first bar: the fields before it agree, and so do the rests. */
  lemma FirstField(a: string, x: string, b: string, y: string)
    requires NoBar(a) && NoBar(b)
    requires Bar(a, x) == Bar(b, y)
    ensures a == b && x == y
  {
    var s := Bar(a, x);
    assert s[|a|] == '|' && s[|b|] == '|';
    assert |a| == |b|;
    assert s[..|a|] == a && s[..|b|] == b;
    assert s[|a| + 1..] == x && s[|b| + 1..] == y;
  }

  /** Cutting at the last bar. */
  lemma LastField(x: string, a: string, y: string, b: string)
    requires NoBar(a) && NoBar(b)
    requires Bar(x, a) == Bar(y, b)
    ensures x == y && a == b
  {
    var s := Bar(x, a);
    assert s[|x|] == '|' && s[|y|] == '|';
    assert |x| == |y|;
    assert s[..|x|] == x && s[..|y|] == y;
    assert s[|x| + 1..] == a && s[|y| + 1..] == b;
  }
}
