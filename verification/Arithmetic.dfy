/** Quotients, remainders and common divisors. */
module Arithmetic {

  lemma MulSub(n: int, a: int, b: int)
    ensures n * (a - b) == n * a - n * b
  {
  }

  lemma MulAtLeast(n: nat, a: nat)
    requires a >= 1
    ensures n * a >= n
  {
    assert n * a == n + n * (a - 1);
  }

  /** Quotient and remainder are unique. */
  lemma Unique(n: nat, q: int, r: int, q': int, r': int)
    requires 0 <= r < n && 0 <= r' < n && n * q + r == n * q' + r'
    ensures q == q' && r == r'
  {
    MulSub(n, q, q');
    if q > q' {
      MulAtLeast(n, q - q');
    } else if q < q' {
      MulSub(n, q', q);
      MulAtLeast(n, q' - q);
    }
  }

  lemma DivMod(y: nat, n: nat)
    requires n > 0
    ensures y == n * (y / n) + y % n && 0 <= y % n < n
  {
  }

  lemma DivIs(y: nat, n: nat, q: nat, r: nat)
    requires r < n && y == n * q + r
    ensures y / n == q && y % n == r
  {
    DivMod(y, n);
    Unique(n, q, r, y / n, y % n);
  }

  lemma ModAdd(a: nat, q: nat, n: nat)
    requires n > 0
    ensures (n * q + a) % n == a % n
  {
    DivMod(a, n);
    MulSub(n, q, -(a / n));
    DivIs(n * q + a, n, q + a / n, a % n);
  }

  lemma ModShift(a: nat, b: nat, n: nat)
    requires n > 0
    ensures (a % n + b) % n == (a + b) % n
  {
    var (q, r) := (a / n, a % n);
    DivMod(a, n);
    ModAdd(r + b, q, n);
    assert n * q + (r + b) == a + b;
  }

  lemma NoTwoInOneRound(start: nat, i: nat, j: nat, n: nat)
    requires i < j < n
    ensures (start + i) % n != (start + j) % n
  {
    var (a, b) := (start + i, start + j);
    DivMod(a, n);
    DivMod(b, n);
    if a % n == b % n {
      MulSub(n, b / n, a / n);
      if b / n > a / n {
        MulAtLeast(n, b / n - a / n);
      } else {
        MulSub(n, a / n, b / n);
      }
    }
  }

  /** Every position comes up within one round of consecutive positions. */
  lemma {:induction false} Comes(base: nat, k: nat, n: nat) returns (y: nat)
    requires k < n
    ensures base <= y < base + n && y % n == k
  {
    if base == 0 {
      y := k;
    } else {
      y := Comes(base - 1, k, n);
      if y == base - 1 {
        ModAdd(y, 1, n);
        assert n * 1 + y == y + n;
        y := y + n;
      }
    }
  }

  lemma DivShift(day: nat, slots: nat, r: nat)
    requires slots > 0
    ensures (slots * day + r) / slots == day + r / slots
  {
    DivMod(r, slots);
    MulSub(slots, day, -(r / slots));
    DivIs(slots * day + r, slots, day + r / slots, r % slots);
  }

  lemma DivMono(a: nat, b: nat, d: nat)
    requires d > 0 && a <= b
    ensures a / d <= b / d
  {
    DivMod(a, d);
    DivMod(b, d);
    if a / d > b / d {
      MulSub(d, a / d, b / d);
      MulAtLeast(d, a / d - b / d);
    }
  }

  // ----- common divisors -----

  /** Euclid's algorithm. */
  function Gcd(a: nat, b: nat): nat
    decreases b
  {
    if b == 0 then a else Gcd(b, a % b)
  }

  lemma MulAssoc(a: int, b: int, c: int)
    ensures a * (b * c) == (a * b) * c
  {
  }

  lemma MulAdd(n: int, a: int, b: int)
    ensures n * (a + b) == n * a + n * b
  {
  }

  /** It divides both. */
  lemma {:induction false} GcdDivides(a: nat, b: nat) returns (p: nat, q: nat)
    requires a > 0 || b > 0
    ensures Gcd(a, b) > 0 && a == Gcd(a, b) * p && b == Gcd(a, b) * q
    decreases b
  {
    if b == 0 {
      p, q := 1, 0;
    } else {
      var g := Gcd(b, a % b);
      var p', q' := GcdDivides(b, a % b);
      DivMod(a, b);
      MulAssoc(g, p', a / b);
      MulAdd(g, p' * (a / b), q');
      p, q := p' * (a / b) + q', p';
    }
  }

  /** And is a combination of both. */
  lemma {:induction false} GcdCombines(a: nat, b: nat) returns (x: int, y: int)
    ensures a * x + b * y == Gcd(a, b)
    decreases b
  {
    if b == 0 {
      x, y := 1, 0;
    } else {
      var x', y' := GcdCombines(b, a % b);
      DivMod(a, b);
      x, y := y', x' - (a / b) * y';
      Rearranges(a, b, a / b, a % b, x', y');
    }
  }

  lemma Rearranges(a: int, b: int, q: int, r: int, x: int, y: int)
    requires a == b * q + r
    ensures b * x + r * y == a * y + b * (x - q * y)
  {
    MulSub(b, x, q * y);
    MulAssoc(b, q, y);
    assert a * y == (b * q) * y + r * y;
  }

  /** The multiples of `step` leave, modulo `n`, multiples of the common divisor; */
  lemma MultiplesAreAligned(step: nat, n: nat, t: nat) returns (j: nat)
    requires n > 0
    ensures t * step % n == Gcd(step, n) * j
  {
    var g := Gcd(step, n);
    var p, q := GcdDivides(step, n);
    var k := t * step / n;
    DivMod(t * step, n);
    MulAssoc(g, p, t);
    MulAssoc(g, q, k);
    MulSub(g, p * t, q * k);
    assert t * step % n == g * (p * t - q * k);
    NonNegativeFactor(g, p * t - q * k);
    j := p * t - q * k;
  }

  lemma NonNegativeFactor(g: nat, j: int)
    requires g > 0 && g * j >= 0
    ensures j >= 0
  {
    if j < 0 {
      MulAtLeast(g, -j);
    }
  }

  /** and every one below `n`. */
  lemma EveryAlignedComes(step: nat, n: nat, j: nat) returns (t: nat)
    requires n > 0 && Gcd(step, n) * j < n
    ensures t * step % n == Gcd(step, n) * j
  {
    var g := Gcd(step, n);
    var x, y := GcdCombines(step, n);
    var z := x * j;
    t := z % n;
    var k := -(y * j) - step * (z / n);
    EuclidMod(z, n);
    Combined(step, n, x, y, g, j, z, t, z / n, k);
    var r := t * step;
    DivMod(r, n);
    assert r == n * k + g * j;
    Unique(n, k, g * j, r / n, r % n);
  }

  lemma EuclidMod(z: int, n: nat)
    requires n > 0
    ensures z == n * (z / n) + z % n && 0 <= z % n < n
  {
  }

  lemma Combined(step: int, n: int, x: int, y: int, g: int, j: int, z: int, t: int, q: int, k: int)
    requires step * x + n * y == g && z == x * j && z == n * q + t && k == -(y * j) - step * q
    ensures t * step == n * k + g * j
  {
    MulAssoc(step, x, j);
    MulAssoc(n, y, j);
    assert g * j == (step * x) * j + (n * y) * j;
    MulAdd(step, n * q, t);
    MulAssoc(step, n, q);
    MulAssoc(n, step, q);
    MulSub(n, -(y * j), step * q);
  }
}
