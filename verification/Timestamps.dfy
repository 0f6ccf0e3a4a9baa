/** The timestamps that name migrations.
  * Models `timestamp_from_nanos` of crates/mads-cli/src/database/publish.rs.
  */
module Timestamps {
  import opened Wrappers
  import opened Decimals
  import opened Orders
  import opened Publication

  function Repeat(c: char, n: nat): string {
    if n == 0 then "" else [c] + Repeat(c, n - 1)
  }

  /** The numeral, padded with zeros to twenty digits; nothing if it is wider. */
  function FromNanos(nanos: nat): Option<string> {
    var digits := Decimal(nanos);
    if |digits| > 20 then None else Some(Repeat('0', 20 - |digits|) + digits)
  }

  function Power10(n: nat): nat {
    if n == 0 then 1 else 10 * Power10(n - 1)
  }

  /** The last `width` digits of a number. */
  function Digits(n: nat, width: nat): (s: string)
    ensures |s| == width
  {
    if width == 0 then "" else Digits(n / 10, width - 1) + [DigitOf(n % 10)]
  }

  lemma {:induction false} WidthExactly(n: nat, width: nat)
    requires width > 0
    ensures |Decimal(n)| <= width <==> n < Power10(width)
  {
    if n < 10 {
      PowerGrows(width - 1);
    } else if width > 1 {
      WidthExactly(n / 10, width - 1);
    } else {
      assert Power10(1) == 10;
    }
  }

  lemma {:induction false} PowerGrows(n: nat)
    ensures Power10(n) >= 1
  {
    if n > 0 { PowerGrows(n - 1); }
  }

  lemma {:induction false} DigitsOfZero(width: nat)
    ensures Digits(0, width) == Repeat('0', width)
  {
    if width > 0 {
      DigitsOfZero(width - 1);
      RepeatBackwards('0', width - 1);
    }
  }

  lemma {:induction false} RepeatBackwards(c: char, n: nat)
    ensures Repeat(c, n) + [c] == [c] + Repeat(c, n)
  {
    if n > 0 {
      RepeatBackwards(c, n - 1);
    }
  }

  lemma {:induction false} PaddedDigits(n: nat, width: nat)
    requires |Decimal(n)| <= width
    ensures Digits(n, width) == Repeat('0', width - |Decimal(n)|) + Decimal(n)
  {
    if n < 10 {
      DigitsOfZero(width - 1);
    } else {
      DecimalMore(n, n / 10, n % 10);
      PaddedDigits(n / 10, width - 1);
      PadMore(Repeat('0', width - |Decimal(n)|), Decimal(n / 10), DigitOf(n % 10));
    }
  }

  lemma DecimalMore(n: nat, tens: nat, ones: nat)
    requires n >= 10 && tens == n / 10 && ones == n % 10
    ensures Decimal(n) == Decimal(tens) + [DigitOf(ones)] && |Decimal(n)| == |Decimal(tens)| + 1
  {}

  lemma PadMore(zeros: string, digits: string, last: char)
    ensures zeros + digits + [last] == zeros + (digits + [last])
  {}

  lemma {:induction false} AppendKeepsOrder(a: string, b: string, x: string, y: string)
    requires |a| == |b| && StringLe(a, b) && (a == b ==> StringLe(x, y))
    ensures StringLe(a + x, b + y)
  {
    if a == "" {
      assert a + x == x && b + y == y;
    } else {
      assert (a + x)[1..] == a[1..] + x && (b + y)[1..] == b[1..] + y;
      if a[0] == b[0] {
        assert a == [a[0]] + a[1..] && b == [b[0]] + b[1..];
        AppendKeepsOrder(a[1..], b[1..], x, y);
      }
    }
  }

  lemma {:induction false} DigitsSort(a: nat, b: nat, width: nat)
    requires a < b < Power10(width)
    ensures StringLe(Digits(a, width), Digits(b, width)) && Digits(a, width) != Digits(b, width)
  {
    var x, y := [DigitOf(a % 10)], [DigitOf(b % 10)];
    var s, t := Digits(a / 10, width - 1), Digits(b / 10, width - 1);
    assert (s + x)[..width - 1] == s && (t + y)[..width - 1] == t;
    assert (s + x)[width - 1] == x[0] && (t + y)[width - 1] == y[0];
    if a / 10 < b / 10 {
      DigitsSort(a / 10, b / 10, width - 1);
    } else {
      StringLeReflexive(s);
      assert x[0] < y[0];
    }
    AppendKeepsOrder(s, t, x, y);
  }

  lemma {:induction false} DigitsAreDigits(n: nat, width: nat)
    ensures AllDigits(Digits(n, width))
  {
    if width > 0 { DigitsAreDigits(n / 10, width - 1); }
  }

  const LIMIT: nat := 100_000_000_000_000_000_000

  /** A timestamp exists exactly below 10 to the 20th nanoseconds, and publication accepts it. */
  lemma FitsExactly(nanos: nat)
    ensures FromNanos(nanos).Some? <==> nanos < LIMIT
    ensures FromNanos(nanos).Some? ==> IsTimestamp(FromNanos(nanos).value)
  {
    assert Power10(4) == 10_000;
    assert Power10(8) == 100_000_000;
    assert Power10(12) == 1_000_000_000_000;
    assert Power10(16) == 10_000_000_000_000_000;
    assert Power10(20) == LIMIT;
    WidthExactly(nanos, 20);
    if nanos < LIMIT {
      PaddedDigits(nanos, 20);
      DigitsAreDigits(nanos, 20);
    }
  }

  lemma SuffixKeepsOrder(a: string, b: string, suffix: string)
    requires |a| == |b| && StringLe(a, b) && a != b
    ensures StringLe(a + suffix, b + suffix) && a + suffix != b + suffix
  {
    AppendKeepsOrder(a, b, suffix, suffix);
    assert (a + suffix)[..|a|] == a && (b + suffix)[..|a|] == b;
  }

  lemma TimestampIsDigits(nanos: nat)
    requires FromNanos(nanos).Some?
    ensures FromNanos(nanos).value == Digits(nanos, 20) && nanos < Power10(20)
  {
    PaddedDigits(nanos, 20);
    WidthExactly(nanos, 20);
  }

  /** Later migrations have names that sort strictly later. */
  lemma LaterSortsLater(a: nat, b: nat)
    requires a < b && FromNanos(b).Some?
    ensures FromNanos(a).Some?
    ensures var x, y := NamesFor(FromNanos(a).value).final, NamesFor(FromNanos(b).value).final;
      StringLe(x, y) && x != y
  {
    TimestampIsDigits(b);
    WidthExactly(a, 20);
    TimestampIsDigits(a);
    DigitsSort(a, b, 20);
    SuffixKeepsOrder(Digits(a, 20), Digits(b, 20), "_schema_diff");
  }
}
