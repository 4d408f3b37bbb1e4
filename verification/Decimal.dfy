/** Decimal numerals: printing, reading back, and the bounded parsers of the source. */
module Decimal {
  import opened Wrappers
  import opened Arithmetic

  predicate IsDigit(c: char) { '0' <= c <= '9' }

  predicate AllDigits(s: string) { forall i :: 0 <= i < |s| ==> IsDigit(s[i]) }

  function DigitValue(c: char): nat
    requires IsDigit(c)
  {
    c as int - '0' as int
  }

  function DigitOf(n: nat): (c: char)
    requires n < 10
    ensures IsDigit(c) && DigitValue(c) == n
  {
    ('0' as int + n) as char
  }

  function FromDigits(s: string): nat
    requires AllDigits(s)
  {
    if s == "" then 0 else FromDigits(s[..|s| - 1]) * 10 + DigitValue(s[|s| - 1])
  }

  /** `usize::to_string`: no leading zero except for zero itself. */
  function Print(n: nat): (s: string)
    ensures s != "" && AllDigits(s)
    ensures s[0] == '0' ==> s == "0"
    ensures FromDigits(s) == n
  {
    if n < 10 then [DigitOf(n)]
    else
      var s := Print(n / 10) + [DigitOf(n % 10)];
      assert s[..|s| - 1] == Print(n / 10);
      s
  }

  /** `str::parse::<i64>`: an optional sign, digits, and the range check. */
  function ParseI64(s: string): Option<int> {
    var digits := if s != "" && (s[0] == '+' || s[0] == '-') then s[1..] else s;
    if digits == "" || !AllDigits(digits) then None
    else
      var magnitude := FromDigits(digits);
      var value: int := if s[0] == '-' then 0 - magnitude else magnitude;
      if I64_MIN <= value <= I64_MAX then Some(value) else None
  }

  /** The array index parser behind JSON pointers: no sign, no leading zero. */
  function ParseIndex(s: string): Option<nat> {
    if s == "" || !AllDigits(s) || (s[0] == '0' && |s| != 1) then None
    else if FromDigits(s) <= U64_MAX then Some(FromDigits(s)) else None
  }

  /** Two's complement wrap-around of a 64-bit signed result. */
  function WrapI64(x: int): (r: int)
    ensures I64_MIN <= r <= I64_MAX
    ensures I64_MIN <= x <= I64_MAX ==> r == x
  {
    (x - I64_MIN) % (U64_MAX + 1) + I64_MIN
  }

  lemma {:induction false} LeadingDigitCounts(s: string)
    requires AllDigits(s) && s != "" && s[0] != '0'
    ensures FromDigits(s) >= 1
  {
    if |s| == 1 {
      assert s[..0] == "";
    } else {
      LeadingDigitCounts(s[..|s| - 1]);
    }
  }

  /** Printing undoes reading for numerals without leading zeros. */
  lemma {:induction false} PrintFromDigits(s: string)
    requires AllDigits(s) && s != "" && (s[0] == '0' ==> |s| == 1)
    ensures Print(FromDigits(s)) == s
  {
    var front, last := s[..|s| - 1], s[|s| - 1];
    assert s == front + [last];
    if |s| == 1 {
      assert FromDigits(s) == DigitValue(last);
    } else {
      LeadingDigitCounts(front);
      PrintFromDigits(front);
      assert FromDigits(s) / 10 == FromDigits(front) && FromDigits(s) % 10 == DigitValue(last);
    }
  }

  /** Parsing undoes printing for every 64-bit number, and accepts an explicit plus. */
  lemma {:induction false} ParsePrinted(n: int)
    requires I64_MIN <= n <= I64_MAX
    ensures ParseI64(if n < 0 then "-" + Print(-n) else Print(n)) == Some(n)
    ensures n >= 0 ==> ParseI64("+" + Print(n)) == Some(n)
  {
    if n < 0 {
      assert ("-" + Print(-n))[1..] == Print(-n);
    } else {
      assert ("+" + Print(n))[1..] == Print(n);
      assert Print(n)[0] != '+' && Print(n)[0] != '-';
    }
  }
}
