/**
 * The string hash behind every cache key, user hash and gate name.
 *
 * `unsigned long` is 32 or 64 bits wide depending on the platform; all arithmetic below is
 * therefore carried out modulo a width that is a parameter.
 */
module Hashing {

  /** 2^32: the hash is masked with 0xffffffff once, after the loop. */
  const WORD: int := 0x1_0000_0000

  /** The value of a `char` converted to `unsigned long`: the low byte, sign-extended. */
  function SignExtended(c: char): (v: int)
    ensures -128 <= v < 128 && v % 256 == c as int % 256
  {
    var low := c as int % 256;
    if low < 128 then low else low - 256
  }

  function Power31(n: nat): (p: nat)
    ensures p > 0
  {
    if n == 0 then 1 else 31 * Power31(n - 1)
  }

  /** The base-31 polynomial of the characters; the first character has the highest power. */
  function Polynomial(s: string): int {
    if s == [] then 0 else SignExtended(s[0]) * Power31(|s| - 1) + Polynomial(s[1..])
  }

  /** An accumulator of `modulus` values that is truncated at every character. */
  function Accumulator(s: string, modulus: int): (h: int)
    requires modulus > 0
    ensures 0 <= h < modulus
  {
    if s == [] then 0
    else (31 * Accumulator(s[..|s| - 1], modulus) + SignExtended(s[|s| - 1])) % modulus
  }

  /** The number that is printed: the polynomial reduced to 32 bits. */
  function HashValue(s: string): (h: nat)
    ensures h < WORD
  {
    Polynomial(s) % WORD
  }

  /** Strings of one character have the same hash exactly if their bytes are the same. */
  lemma OneCharacterHash(a: char, b: char)
    ensures HashValue([a]) == HashValue([b]) <==> a as int % 256 == b as int % 256
    ensures a as int < 128 ==> HashValue([a]) == a as int
  {
    OneCharacter(a);
    OneCharacter(b);
  }

  lemma OneCharacter(c: char)
    ensures HashValue([c]) == SignExtended(c) % WORD
  {
    assert Power31(0) == 1 && Polynomial([c][1..]) == 0;
    assert Polynomial([c]) == SignExtended(c) * Power31(0) + Polynomial([c][1..]);
  }

  /** `std::to_string` of an unsigned number. */
  function Decimal(n: nat): (text: string)
    ensures text != []
  {
    var digit := ['0' + (n % 10) as char];
    if n < 10 then digit else Decimal(n / 10) + digit
  }

  function DecimalValue(text: string): int {
    if text == [] then 0
    else 10 * DecimalValue(text[..|text| - 1]) + (text[|text| - 1] as int - '0' as int)
  }

  function DJB2Text(s: string): string {
    Decimal(HashValue(s))
  }

  // ---- modular arithmetic ----

  lemma MultipleIsLarge(m: int, d: int)
    requires m > 0
    ensures d >= 1 ==> m * d >= m
    ensures d <= -1 ==> m * d <= -m
  {
  }

  lemma ModPlusMultiple(x: int, k: int, m: int)
    requires m > 0
    ensures (x + k * m) % m == x % m
  {
    var y := x + k * m;
    var d := y / m - x / m - k;
    assert y == m * (y / m) + y % m && x == m * (x / m) + x % m;
    assert m * d == x % m - y % m by {
      assert m * d == m * (y / m) - m * (x / m) - m * k;
    }
    MultipleIsLarge(m, d);
  }

  /** A factor and a summand may each be reduced before an outer reduction. */
  lemma ModLinear(a: int, x: int, b: int, m: int)
    requires m > 0
    ensures (a * (x % m) + b) % m == (a * x + b) % m
  {
    var q := x / m;
    assert a * x + b == a * (x % m) + b + (a * q) * m by {
      assert x == m * q + x % m;
      assert a * x == a * (m * q) + a * (x % m);
      assert a * (m * q) == (a * q) * m;
    }
    ModPlusMultiple(a * (x % m) + b, a * q, m);
  }

  /** Reducing modulo a multiple of `m` first does not change the residue modulo `m`. */
  lemma ModOfMultiple(x: int, m: int, k: int)
    requires m > 0 && k > 0
    ensures m * k > 0
    ensures x % (m * k) % m == x % m
  {
    var n := m * k;
    assert n > 0;
    var q := x / n;
    assert x == x % n + (k * q) * m by {
      assert x == n * q + x % n;
      assert n * q == (k * q) * m;
    }
    ModPlusMultiple(x % n, k * q, m);
  }

  lemma ReduceSummand(x: int, b: int, m: int)
    requires m > 0
    ensures (x % m + b) % m == (x + b) % m
  {
    ModLinear(1, x, b, m);
  }

  // ---- the two evaluation orders agree ----

  lemma {:induction false} PolynomialSnoc(s: string, c: char)
    ensures Polynomial(s + [c]) == 31 * Polynomial(s) + SignExtended(c)
  {
    if s == [] {
      assert Polynomial([c]) == SignExtended(c) * Power31(0) + Polynomial([]);
    } else {
      var t := s + [c];
      assert t[1..] == s[1..] + [c];
      PolynomialSnoc(s[1..], c);
      var v, p := SignExtended(s[0]), Power31(|s| - 1);
      assert Power31(|s|) == 31 * p;
      assert v * (31 * p) == 31 * (v * p);
    }
  }

  /** Truncating at every character computes the polynomial modulo the width of the accumulator. */
  lemma {:induction false} AccumulatorIsPolynomial(s: string, modulus: int)
    requires modulus > 0
    ensures Accumulator(s, modulus) == Polynomial(s) % modulus
  {
    if s != [] {
      var front, c := s[..|s| - 1], s[|s| - 1];
      assert s == front + [c];
      AccumulatorIsPolynomial(front, modulus);
      PolynomialSnoc(front, c);
      ModLinear(31, Polynomial(front), SignExtended(c), modulus);
    }
  }

  /**
   * Masking a wide accumulator once at the end gives the same value as a 32-bit accumulator that
   * wraps at every step, for every width that is a multiple of 32 bits.
   */
  lemma WideAccumulatorMaskedOnce(s: string, k: int)
    requires k > 0
    ensures Accumulator(s, WORD * k) % WORD == Accumulator(s, WORD) == HashValue(s)
  {
    AccumulatorIsPolynomial(s, WORD * k);
    AccumulatorIsPolynomial(s, WORD);
    ModOfMultiple(Polynomial(s), WORD, k);
  }

  // ---- concatenation ----

  lemma {:induction false} PowerSum(m: nat, n: nat)
    ensures Power31(m + n) == Power31(m) * Power31(n)
  {
    if m > 0 {
      PowerSum(m - 1, n);
      Distribute(31, Power31(m - 1), Power31(n), 0);
    }
  }

  lemma Distribute(v: int, p: int, q: int, r: int)
    ensures v * (p * q) + r * q == (v * p + r) * q
  {
  }

  lemma {:induction false} PolynomialConcat(a: string, b: string)
    ensures Polynomial(a + b) == Polynomial(a) * Power31(|b|) + Polynomial(b)
  {
    if a == [] {
      assert a + b == b;
    } else {
      assert (a + b)[1..] == a[1..] + b;
      PolynomialConcat(a[1..], b);
      PowerSum(|a| - 1, |b|);
      Distribute(SignExtended(a[0]), Power31(|a| - 1), Power31(|b|), Polynomial(a[1..]));
    }
  }

  /** The hash of a concatenation is determined by the two hashes and the length of the second. */
  lemma HashConcat(a: string, b: string)
    ensures HashValue(a + b) == (HashValue(a) * Power31(|b|) + HashValue(b)) % WORD
  {
    PolynomialConcat(a, b);
    ReduceBoth(Power31(|b|), Polynomial(a), Polynomial(b), WORD);
  }

  lemma ReduceBoth(p: int, x: int, y: int, m: int)
    requires m > 0
    ensures (x * p + y) % m == ((x % m) * p + y % m) % m
  {
    var r := p * (x % m);
    assert (r + y) % m == (p * x + y) % m by { ModLinear(p, x, y, m); }
    assert (y % m + r) % m == (y + r) % m by { ReduceSummand(y, r, m); }
    assert p * x == x * p && r == (x % m) * p;
  }

  // ---- the printed form ----

  lemma {:induction false} DecimalRoundTrip(n: nat)
    ensures DecimalValue(Decimal(n)) == n
  {
    var digit := ['0' + (n % 10) as char];
    if n < 10 {
      assert digit[..0] == [];
    } else {
      DecimalRoundTrip(n / 10);
      var text := Decimal(n / 10) + digit;
      assert text[..|text| - 1] == Decimal(n / 10);
    }
  }

  /** Printed hashes are equal exactly when the 32-bit hashes are. */
  lemma DJB2TextFaithful(a: string, b: string)
    ensures DJB2Text(a) == DJB2Text(b) <==> HashValue(a) == HashValue(b)
  {
    DecimalRoundTrip(HashValue(a));
    DecimalRoundTrip(HashValue(b));
  }

  // ---- the loop ----

  /** One iteration, with every C++ operation wrapping at the width of `unsigned long`. */
  lemma StepIsHorner(h: int, v: int, m: int)
    requires m > 0
    ensures (((h * 32) % m - h) % m + v % m) % m == (31 * h + v) % m
  {
    var difference := ((h * 32) % m - h) % m;
    assert difference == (31 * h) % m by { ReduceSummand(h * 32, -h, m); }
    assert (difference + v % m) % m == (31 * h + v % m) % m by { ReduceSummand(31 * h, v % m, m); }
    assert (v % m + 31 * h) % m == (v + 31 * h) % m by { ReduceSummand(v, 31 * h, m); }
  }

  method DJB2(value: string, wide: bool) returns (text: string)
    ensures text == DJB2Text(value)
  {
    var modulus := if wide then WORD * WORD else WORD;
    var hash := 0;
    for i := 0 to |value|
      invariant hash == Accumulator(value[..i], modulus)
    {
      StepIsHorner(hash, SignExtended(value[i]), modulus);
      hash := (((hash * 32) % modulus - hash) % modulus + SignExtended(value[i]) % modulus) % modulus;
      assert value[..i + 1][..i] == value[..i];
    }
    assert value[..|value|] == value;
    WideAccumulatorMaskedOnce(value, if wide then WORD else 1);
    hash := hash % WORD;
    text := Decimal(hash);
  }
}
