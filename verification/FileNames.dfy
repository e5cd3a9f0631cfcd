/** The names of queued events: their lexical order is the order of collection. */
module FileNames {

  /** Byte-wise order of strings, as `sort.Strings` has it. */
  predicate Less(a: string, b: string)
    decreases |a|
  {
    b != [] && (a == [] || a[0] < b[0] || (a[0] == b[0] && Less(a[1..], b[1..])))
  }

  lemma LessTransitive(a: string, b: string, c: string)
    requires Less(a, b) && Less(b, c)
    ensures Less(a, c)
    decreases |a|
  {
    if a != [] && a[0] == b[0] == c[0] { LessTransitive(a[1..], b[1..], c[1..]); }
  }

  lemma LessTotal(a: string, b: string)
    ensures Less(a, b) || a == b || Less(b, a)
    ensures !(Less(a, b) && Less(b, a)) && !Less(a, a)
    decreases |a|
  {
    if a != [] && b != [] && a[0] == b[0] {
      LessTotal(a[1..], b[1..]);
      assert a == [a[0]] + a[1..] && b == [b[0]] + b[1..];
    }
    if a != [] { LessTotal(a[1..], a[1..]); }
  }

  function Pow10(w: nat): nat { if w == 0 then 1 else 10 * Pow10(w - 1) }

  function Digit(n: nat): char
    requires n < 10
  {
    "0123456789"[n]
  }

  /** The last `w` decimal digits of `n`, with leading zeros. */
  function Digits(n: nat, w: nat): (s: string)
    ensures |s| == w
    ensures w > 0 ==> '0' <= s[0] <= '9'
  {
    if w == 0 then "" else
      var front := Digits(n / 10, w - 1);
      front + [Digit(n % 10)]
  }

  /** `%020d` of a 64-bit time */
  function Stamp(nanos: int): string {
    if nanos >= 0 then Digits(nanos, 20) else "-" + Digits(-nanos, 19)
  }

  function FileName(nanos: int, id: string): string { Stamp(nanos) + "-" + id + ".json" }

  /** Strings of equal length in front decide, unless they are the same. */
  lemma LessSum(a: string, b: string, x: string, y: string)
    requires |a| == |b|
    ensures Less(a + x, b + y) <==> Less(a, b) || (a == b && Less(x, y))
    decreases |a|
  {
    if a == [] {
      assert a + x == x && b + y == y;
    } else {
      assert (a + x)[1..] == a[1..] + x && (b + y)[1..] == b[1..] + y;
      assert a == [a[0]] + a[1..] && b == [b[0]] + b[1..];
      LessSum(a[1..], b[1..], x, y);
    }
  }

  lemma DigitOrder(m: nat, n: nat)
    requires m < 10 && n < 10
    ensures Less([Digit(m)], [Digit(n)]) <==> m < n
    ensures Digit(m) == Digit(n) <==> m == n
  {}

  /** With as many digits as both numbers need, the order of the digits is the order of the numbers. */
  lemma {:induction false} DigitsOrder(m: nat, n: nat, w: nat)
    requires m < Pow10(w) && n < Pow10(w)
    ensures Less(Digits(m, w), Digits(n, w)) <==> m < n
    ensures Digits(m, w) == Digits(n, w) <==> m == n
  {
    if w > 0 {
      var a, b := Digits(m / 10, w - 1), Digits(n / 10, w - 1);
      DigitsOrder(m / 10, n / 10, w - 1);
      DigitOrder(m % 10, n % 10);
      LessSum(a, b, [Digit(m % 10)], [Digit(n % 10)]);
      assert Digits(m, w) == Digits(n, w) ==> a == b && Digit(m % 10) == Digit(n % 10) by {
        assert Digits(m, w)[..w - 1] == a && Digits(n, w)[..w - 1] == b;
        assert Digits(m, w)[w - 1] == Digit(m % 10) && Digits(n, w)[w - 1] == Digit(n % 10);
      }
    }
  }

  /** What a 64-bit time needs: 19 digits. */
  const MAX_TIME: int := 0x8000_0000_0000_0000

  lemma TimeFits(n: nat)
    requires n <= MAX_TIME
    ensures n < Pow10(19) && n < Pow10(20)
  {
    assert Pow10(5) == 100000;
    Pow10Sum(5, 5);
    Pow10Sum(10, 5);
    Pow10Sum(15, 4);
    assert Pow10(4) == 10000;
  }

  lemma {:induction false} Pow10Sum(a: nat, b: nat)
    ensures Pow10(a + b) == Pow10(a) * Pow10(b)
    decreases b
  {
    if b > 0 { Pow10Sum(a, b - 1); }
  }

  /** Sorting the directory by name gives collection order, ties broken by id: first in, first out. */
  lemma NameOrder(s: int, a: string, t: int, b: string)
    requires 0 <= s <= MAX_TIME && 0 <= t <= MAX_TIME && |a| == |b|
    ensures Less(FileName(s, a), FileName(t, b)) <==> s < t || (s == t && Less(a, b))
  {
    TimeFits(s);
    TimeFits(t);
    DigitsOrder(s, t, 20);
    NameParts(s, a);
    NameParts(t, b);
    LessSum(Stamp(s), Stamp(t), "-" + a + ".json", "-" + b + ".json");
    IdOrder(a, b);
  }

  lemma NameParts(s: int, a: string)
    ensures FileName(s, a) == Stamp(s) + ("-" + a + ".json")
  {}

  lemma IdOrder(a: string, b: string)
    requires |a| == |b|
    ensures Less("-" + a + ".json", "-" + b + ".json") <==> Less(a, b)
  {
    LessSum("-" + a, "-" + b, ".json", ".json");
    LessSum("-", "-", a, b);
    LessTotal("-", "-");
    LessTotal(".json", ".json");
  }

  /** A sign sorts before every digit. */
  lemma SignFirst(s: int, t: int)
    requires s < 0 <= t
    ensures Less(Stamp(s), Stamp(t)) && !Less(Stamp(t), Stamp(s)) && Stamp(s) != Stamp(t)
  {
    assert Stamp(s)[0] == '-' && '0' <= Stamp(t)[0] <= '9';
  }

  lemma PositiveStamps(s: int, t: int)
    requires 0 <= s <= MAX_TIME && 0 <= t <= MAX_TIME
    ensures Less(Stamp(s), Stamp(t)) <==> s < t
    ensures Stamp(s) == Stamp(t) <==> s == t
  {
    hide Digits, Pow10, Less;
    TimeFits(s);
    TimeFits(t);
    DigitsOrder(s, t, 20);
  }

  lemma NegativeStamps(s: int, t: int)
    requires -MAX_TIME <= s < 0 && -MAX_TIME <= t < 0
    ensures Less(Stamp(s), Stamp(t)) <==> t < s
    ensures Stamp(s) == Stamp(t) <==> s == t
  {
    hide Digits, Pow10, Less;
    TimeFits(-s);
    TimeFits(-t);
    DigitsOrder(-s, -t, 19);
    LessSum("-", "-", Digits(-s, 19), Digits(-t, 19));
    LessTotal("-", "-");
    assert ("-" + Digits(-s, 19))[1..] == Digits(-s, 19) && ("-" + Digits(-t, 19))[1..] == Digits(-t, 19);
  }

  lemma StampsDecide(s: int, a: string, t: int, b: string)
    requires |a| == |b| && Stamp(s) != Stamp(t)
    ensures Less(FileName(s, a), FileName(t, b)) <==> Less(Stamp(s), Stamp(t))
  {
    hide Stamp, Less;
    NameParts(s, a);
    NameParts(t, b);
    StampLength(s);
    StampLength(t);
    LessSum(Stamp(s), Stamp(t), "-" + a + ".json", "-" + b + ".json");
  }

  lemma StampLength(s: int)
    ensures |Stamp(s)| == 20
  {}

  /** Times before 1970 are the exception, and among themselves only: two of them sort backwards. */
  lemma NegativeTimesSortBackwards(s: int, a: string, t: int, b: string)
    requires -MAX_TIME <= s <= MAX_TIME && -MAX_TIME <= t <= MAX_TIME && s != t && |a| == |b|
    ensures (Less(FileName(s, a), FileName(t, b)) <==> s < t) <==> !(s < 0 && t < 0)
  {
    hide Stamp, Less, FileName;
    if s >= 0 && t >= 0 {
      PositiveStamps(s, t);
    } else if s < 0 && t < 0 {
      NegativeStamps(s, t);
    } else if s < 0 {
      SignFirst(s, t);
    } else {
      SignFirst(t, s);
    }
    StampsDecide(s, a, t, b);
  }
}
