/** Names of log files: `wal_%08d.log`, and why their order in a directory listing is the order of writing. */
module WalNames {
  function Pow10(w: nat): (p: nat)
    ensures p >= 1
  {
    if w == 0 then 1 else 10 * Pow10(w - 1)
  }

  function DigitChar(d: nat): char
    requires d < 10
  {
    ['0', '1', '2', '3', '4', '5', '6', '7', '8', '9'][d]
  }

  function DigitValue(c: char): nat {
    if '0' <= c <= '9' then (c - '0') as int else 0
  }

  /** The last `width` decimal digits of `n`. */
  function Digits(n: nat, width: nat): (s: string)
    ensures |s| == width
  {
    if width == 0 then "" else Digits(n / 10, width - 1) + [DigitChar(n % 10)]
  }

  function Width(n: nat): nat {
    if n < 10 then 1 else 1 + Width(n / 10)
  }

  const PREFIX := "wal_"
  const SUFFIX := ".log"
  const PADDING: nat := 8

  /** At least eight digits; a longer number is printed whole. */
  function Padded(n: nat): string {
    Digits(n, if Width(n) < PADDING then PADDING else Width(n))
  }

  function FileName(n: nat): string {
    PREFIX + Padded(n) + SUFFIX
  }

  function ParseNumber(s: string): nat {
    if s == "" then 0 else 10 * ParseNumber(s[..|s| - 1]) + DigitValue(s[|s| - 1])
  }

  /** The number scanned from a file name. */
  function SequenceOf(name: string): nat {
    if |name| >= 8 then ParseNumber(name[4..|name| - 4]) else 0
  }

  /** Lexical order, in which a directory listing is sorted. */
  predicate Less(a: string, b: string) {
    b != "" && (a == "" || a[0] < b[0] || (a[0] == b[0] && Less(a[1..], b[1..])))
  }

  // ---- numbers and names ----

  lemma {:induction false} WidthSuffices(n: nat)
    ensures n < Pow10(Width(n))
  {
    if n >= 10 {
      WidthSuffices(n / 10);
    }
  }

  lemma {:induction false} MorePlaces(v: nat, w: nat)
    requires v <= w
    ensures Pow10(v) <= Pow10(w)
  {
    if v < w {
      MorePlaces(v, w - 1);
    }
  }

  lemma {:induction false} DigitsParse(n: nat, w: nat)
    requires n < Pow10(w)
    ensures ParseNumber(Digits(n, w)) == n
  {
    if w > 0 {
      var s := Digits(n, w);
      DigitsParse(n / 10, w - 1);
      assert s[..|s| - 1] == Digits(n / 10, w - 1);
    }
  }

  /** The number of a file is read back from its name, so no two files share a name. */
  lemma SequenceOfName(n: nat)
    ensures SequenceOf(FileName(n)) == n
  {
    var name, w := FileName(n), if Width(n) < PADDING then PADDING else Width(n);
    WidthSuffices(n);
    MorePlaces(Width(n), w);
    DigitsParse(n, w);
    assert name[4..|name| - 4] == Padded(n);
  }

  // ---- order ----

  lemma {:induction false} LessOneWay(a: string, b: string)
    requires Less(a, b)
    ensures a != b && !Less(b, a)
  {
    if a != "" && a[0] == b[0] {
      LessOneWay(a[1..], b[1..]);
    }
  }

  lemma {:induction false} SamePrefix(p: string, a: string, b: string)
    ensures Less(p + a, p + b) == Less(a, b)
  {
    if p == "" {
      assert p + a == a && p + b == b;
    } else {
      assert (p + a)[1..] == p[1..] + a && (p + b)[1..] == p[1..] + b;
      SamePrefix(p[1..], a, b);
    }
  }

  lemma {:induction false} DigitsLess(m: nat, n: nat, w: nat, a: string, b: string)
    requires m < n < Pow10(w)
    ensures Less(Digits(m, w) + a, Digits(n, w) + b)
  {
    var p, q, c, d := Digits(m / 10, w - 1), Digits(n / 10, w - 1), [DigitChar(m % 10)], [DigitChar(n % 10)];
    assert Digits(m, w) + a == p + (c + a) && Digits(n, w) + b == q + (d + b);
    if m / 10 < n / 10 {
      DigitsLess(m / 10, n / 10, w - 1, c + a, d + b);
    } else {
      SamePrefix(p, c + a, d + b);
    }
  }

  const LIMIT: nat := 100_000_000

  /** A number below a power of ten needs no more digits than that, and only then. */
  lemma {:induction false} WidthBelow(n: nat, w: nat)
    requires w >= 1
    ensures Width(n) <= w <==> n < Pow10(w)
  {
    if n >= 10 && w > 1 {
      WidthBelow(n / 10, w - 1);
    }
  }

  lemma LimitIsPower()
    ensures LIMIT == Pow10(8)
  {
    assert Pow10(4) == 10_000;
  }

  lemma EightDigits(n: nat)
    requires n < LIMIT
    ensures Width(n) <= PADDING && n < Pow10(8)
  {
    LimitIsPower();
    WidthBelow(n, 8);
  }

  lemma NamesAscend(m: nat, n: nat)
    requires m < n < LIMIT
    ensures Less(FileName(m), FileName(n))
  {
    EightDigits(m);
    EightDigits(n);
    DigitsLess(m, n, 8, SUFFIX, SUFFIX);
    SamePrefix(PREFIX, Padded(m) + SUFFIX, Padded(n) + SUFFIX);
    assert FileName(m) == PREFIX + (Padded(m) + SUFFIX) && FileName(n) == PREFIX + (Padded(n) + SUFFIX);
  }

  lemma ListedBefore(m: nat, n: nat)
    requires m < LIMIT && n < LIMIT
    ensures Less(FileName(m), FileName(n)) <==> m < n
  {
    if m < n {
      NamesAscend(m, n);
    } else if n < m {
      NamesAscend(n, m);
      LessOneWay(FileName(n), FileName(m));
    } else if Less(FileName(m), FileName(n)) {
      LessOneWay(FileName(m), FileName(n));
    }
  }

  /** Names of files up to number `last` are listed in the order of their numbers. */
  ghost predicate ListedInOrder(last: nat) {
    forall m, n :: 1 <= m < n <= last ==> Less(FileName(m), FileName(n))
  }

  /** A power of ten starts with a one, and the number before it with a nine. */
  lemma {:induction false} LeadingDigits(w: nat)
    requires w >= 1
    ensures Digits(Pow10(w), w + 1)[0] == '1' && Digits(Pow10(w) - 1, w)[0] == '9'
  {
    if w > 1 {
      LeadingDigits(w - 1);
      assert Pow10(w) / 10 == Pow10(w - 1) && (Pow10(w) - 1) / 10 == Pow10(w - 1) - 1;
    } else {
      assert Digits(1, 1)[0] == '1';
    }
  }

  lemma OneMoreDigit(w: nat, a: string, b: string)
    requires w >= 1
    ensures Less(Digits(Pow10(w), w + 1) + a, Digits(Pow10(w) - 1, w) + b)
  {
    LeadingDigits(w);
  }

  lemma AtTheLimit(n: nat)
    requires n == Pow10(PADDING)
    ensures Padded(n) == Digits(n, PADDING + 1) && Padded(n - 1) == Digits(n - 1, PADDING)
  {
    WidthBelow(n, PADDING);
    WidthBelow(n, PADDING + 1);
    WidthBelow(n - 1, PADDING);
  }

  /** With a ninth digit the order is lost: file 100000000 is listed before file 99999999. */
  lemma NinthDigit()
    ensures Less(FileName(LIMIT), FileName(LIMIT - 1))
  {
    LimitIsPower();
    AtTheLimit(LIMIT);
    OneMoreDigit(PADDING, SUFFIX, SUFFIX);
    SamePrefix(PREFIX, Padded(LIMIT) + SUFFIX, Padded(LIMIT - 1) + SUFFIX);
    assert FileName(LIMIT) == PREFIX + (Padded(LIMIT) + SUFFIX);
    assert FileName(LIMIT - 1) == PREFIX + (Padded(LIMIT - 1) + SUFFIX);
  }

  /** The listing order is the order of numbers exactly as long as the numbers have at most eight digits. */
  lemma OrderIffEightDigits(last: nat)
    ensures ListedInOrder(last) <==> last < LIMIT
  {
    if last < LIMIT {
      forall m, n | 1 <= m < n <= last
        ensures Less(FileName(m), FileName(n))
      {
        NamesAscend(m, n);
      }
    } else {
      NinthDigit();
      LessOneWay(FileName(LIMIT), FileName(LIMIT - 1));
      assert !Less(FileName(LIMIT - 1), FileName(LIMIT));
    }
  }
}
