/** Numbers written in decimal, and the order of texts. */
module Decimals {

  function Digit(d: nat): char
    requires d < 10
  {
    "0123456789"[d]
  }

  function Decimal(n: nat): string
  {
    if n < 10 then [Digit(n)] else Decimal(n / 10) + [Digit(n % 10)]
  }

  function ValueOf(s: string): int
  {
    if s == "" then 0 else ValueOf(s[..|s| - 1]) * 10 + (s[|s| - 1] as int - '0' as int)
  }

  lemma ValueSnoc(s: string, c: char)
    ensures ValueOf(s + [c]) == ValueOf(s) * 10 + (c as int - '0' as int)
  {
    assert (s + [c])[..|s|] == s;
  }

  lemma DigitValue(d: nat)
    requires d < 10
    ensures Digit(d) as int - '0' as int == d
  {
  }

  lemma {:induction false} DecimalValue(n: nat)
    ensures ValueOf(Decimal(n)) == n && Decimal(n) != ""
    decreases n
  {
    hide Digit;
    DigitValue(n % 10);
    if n >= 10 {
      DecimalValue(n / 10);
      ValueSnoc(Decimal(n / 10), Digit(n % 10));
    } else {
      ValueSnoc("", Digit(n));
      assert "" + [Digit(n)] == [Digit(n)];
    }
  }

  lemma {:induction false} ZeroInFront(s: string)
    ensures ValueOf("0" + s) == ValueOf(s)
    decreases |s|
  {
    if s == "" {
      assert ("0" + s)[..0] == "";
    } else {
      ZeroInFront(s[..|s| - 1]);
      assert ("0" + s)[..|s|] == "0" + s[..|s| - 1];
    }
  }

  predicate IsDigit(c: char) { '0' <= c <= '9' }

  /** Only digits, and at least one. */
  predicate IsDecimal(s: string) { s != "" && forall k | 0 <= k < |s| :: IsDigit(s[k]) }

  /** Texts in order, character by character. */
  predicate Less(a: string, b: string)
  {
    if a == "" then b != ""
    else if b == "" then false
    else a[0] < b[0] || (a[0] == b[0] && Less(a[1..], b[1..]))
  }

  lemma {:induction false} LessIsTotal(a: string, b: string)
    ensures Less(a, b) || a == b || Less(b, a)
    ensures !(Less(a, b) && Less(b, a)) && !Less(a, a)
    decreases |a|
  {
    if a != "" {
      LessIsTotal(a[1..], a[1..]);
      if b != "" {
        LessIsTotal(a[1..], b[1..]);
        if a[1..] == b[1..] && a[0] == b[0] {
          assert a == [a[0]] + a[1..] && b == [b[0]] + b[1..];
        }
      }
    }
  }

  lemma {:induction false} LessTrans(a: string, b: string, c: string)
    requires Less(a, b) && Less(b, c)
    ensures Less(a, c)
    decreases |a|
  {
    if a != "" && a[0] == b[0] == c[0] {
      LessTrans(a[1..], b[1..], c[1..]);
    }
  }
}
