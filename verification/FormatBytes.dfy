/** The scaling loop of FormatBytes, in 64-bit arithmetic. */
module FormatBytes {

  newtype int64 = x: int | -0x8000_0000_0000_0000 <= x < 0x8000_0000_0000_0000

  const UNITS := "KMGTPE"

  /** What is printed: a plain count, or `number / div` to one digit with the letter of a unit. */
  datatype Shown = Plain(number: int64) | Scaled(number: int64, div: int64, letter: char)

  function Pow1024(k: nat): (p: int)
    ensures p >= 1
  {
    if k == 0 then 1 else 1024 * Pow1024(k - 1)
  }

  lemma {:induction false} PowersGrow(j: nat, k: nat)
    requires j < k
    ensures 1024 * Pow1024(j) <= Pow1024(k)
  {
    if j < k - 1 { PowersGrow(j, k - 1); }
  }

  lemma Regroup(b: nat, d: int, q: int, x: int, y: int)
    requires d >= 1 && q == b / d && q == 1024 * x + y && 0 <= y < 1024
    ensures b == (1024 * d) * x + (d * y + b % d) && 0 <= d * y + b % d < 1024 * d
  {
    assert b == d * q + b % d;
    Distribute(d, x, y);
    Monotone(d, 0, y);
    Monotone(d, y, 1023);
  }

  lemma Distribute(d: int, x: int, y: int)
    ensures d * (1024 * x + y) == (1024 * d) * x + d * y
  {}

  /** The next digit group. */
  lemma DivideAgain(b: nat, d: int)
    requires d >= 1
    ensures b / d / 1024 == b / (1024 * d)
  {
    var q := b / d;
    var r := d * (q % 1024) + b % d;
    Regroup(b, d, q, q / 1024, q % 1024);
    QuotientIs(b, 1024 * d, q / 1024, r);
  }

  lemma Monotone(d: nat, x: int, y: int)
    requires x <= y
    ensures d * x <= d * y
  {}

  lemma QuotientIs(b: nat, d: int, q: int, r: int)
    requires d >= 1 && b == d * q + r && 0 <= r < d
    ensures b / d == q
  {
    var p := b / d;
    assert b == d * p + b % d;
    if p < q { Monotone(d, p + 1, q); }
    if p > q { Monotone(d, q + 1, p); }
  }

  lemma NextUnit(b: nat, d: int, n: int)
    requires d >= 1 && n == b / d && n >= 1024
    ensures 1024 * d <= b && b / (1024 * d) == n / 1024
  {
    DivideAgain(b, d);
    assert b == d * n + b % d;
    Monotone(d, 1024, n);
  }

  /** 1024^7 is beyond 64 bits. */
  lemma SevenIsTooMany(k: nat)
    requires k >= 7
    ensures Pow1024(k) >= 0x8000_0000_0000_0000
  {
    if k > 7 { PowersGrow(7, k); }
    assert Pow1024(2) == 0x10_0000;
    assert Pow1024(4) == 0x100_0000_0000;
    assert Pow1024(6) == 0x1000_0000_0000_0000;
  }

  /** `r` shows b in the unit 1024^(exp+1). */
  ghost predicate InUnit(b: int64, r: Shown, exp: nat) {
    && exp <= 5 && r.Scaled? && r.number == b && r.letter == UNITS[exp]
    && r.div as int == Pow1024(exp + 1) && r.div <= b && b as int < 1024 * r.div as int
  }

  /** There is only one such unit. */
  lemma UnitIsUnique(b: int64, r: Shown, exp: nat, r': Shown, exp': nat)
    requires InUnit(b, r, exp) && InUnit(b, r', exp')
    ensures exp == exp' && r == r'
  {
    if exp < exp' { PowersGrow(exp + 1, exp' + 1); }
    if exp' < exp { PowersGrow(exp' + 1, exp + 1); }
  }

  /** The unit is the largest that does not exceed the number, its letter exists for every 64-bit number, and no step
      overflows. */
  method FormatBytes(b: int64) returns (r: Shown)
    ensures b < 1024 ==> r == Plain(b)
    ensures b >= 1024 ==> exists exp: nat :: InUnit(b, r, exp)
  {
    if b < 1024 { return Plain(b); }
    var div: int64, exp: nat := 1024, 0;
    var n := b / 1024;
    assert Pow1024(1) == 1024;
    while n >= 1024
      invariant div as int == Pow1024(exp + 1) && n as int == b as int / div as int && 1 <= n
      decreases n
    {
      NextUnit(b as int, div as int, n as int);
      div := div * 1024;
      exp := exp + 1;
      n := n / 1024;
    }
    Bounds(b as int, div as int, n as int);
    if exp >= 6 { SevenIsTooMany(exp + 1); }
    r := Scaled(b, div, UNITS[exp]);
    assert InUnit(b, r, exp);
  }

  lemma Bounds(b: nat, d: int, n: int)
    requires d >= 1 && n == b / d && 1 <= n < 1024
    ensures d <= b < 1024 * d
  {
    assert b == d * n + b % d;
    Monotone(d, 1, n);
    Monotone(d, n, 1023);
  }
}
