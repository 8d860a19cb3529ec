// Powers of two and the few bit-level facts the address arithmetic needs.

module Bits {
  function Pow2(n: nat): (p: nat)
    ensures p > 0
  {
    if n == 0 then 1 else 2 * Pow2(n - 1)
  }

  // Bitwise or, bit by bit.
  function BitOr(x: nat, y: nat): nat {
    if x == 0 && y == 0 then 0
    else 2 * BitOr(x / 2, y / 2) + (if x % 2 == 1 || y % 2 == 1 then 1 else 0)
  }

  lemma {:induction false} Pow2Add(a: nat, b: nat)
    ensures Pow2(a + b) == Pow2(a) * Pow2(b)
  {
    if a > 0 {
      Pow2Add(a - 1, b);
      Pow2Step(a);
      Pow2Step(a + b);
      hide Pow2;
      Twice(Pow2(a - 1), Pow2(b));
    }
  }

  lemma Pow2Step(n: nat)
    requires n > 0
    ensures Pow2(n) == 2 * Pow2(n - 1)
  {
  }

  lemma Twice(a: nat, b: nat)
    ensures 2 * (a * b) == (2 * a) * b
  {
  }

  lemma Product(a: nat, b: int, c: int)
    requires b <= c
    ensures a * b <= a * c
  {
  }

  // Shifting right and masking, by any radix.
  function Div(v: nat, m: nat): nat
    requires m > 0
  {
    v / m
  }

  function Mod(v: nat, m: nat): (r: nat)
    requires m > 0
    ensures r < m
  {
    v % m
  }

  lemma DivMod(v: nat, m: nat)
    requires m > 0
    ensures v == Div(v, m) * m + Mod(v, m)
  {
  }

  // q * m + r with r < m has quotient q and remainder r.
  lemma DivModUnique(v: nat, q: nat, m: nat, r: nat)
    requires m > 0 && r < m && v == q * m + r
    ensures Div(v, m) == q && Mod(v, m) == r
  {
    hide Div, Mod;
    DivMod(v, m);
    SameDigits(m, q, r, Div(v, m), Mod(v, m));
  }

  lemma Gap(m: nat, a: nat, b: nat)
    requires a < b
    ensures a * m + m <= b * m
  {
    Product(m, a + 1, b);
    assert m * (a + 1) == a * m + m;
  }

  lemma SameDigits(m: nat, q: nat, r: nat, q': nat, r': nat)
    requires r < m && r' < m && q * m + r == q' * m + r'
    ensures q == q' && r == r'
  {
    if q' < q {
      Gap(m, q', q);
      assert false;
    }
    if q < q' {
      Gap(m, q, q');
      assert false;
    }
  }

  lemma DivLess(v: nat, a: nat, b: nat)
    requires a > 0 && v < a * b
    ensures Div(v, a) < b
  {
    hide Div, Mod;
    DivMod(v, a);
    if Div(v, a) >= b {
      Product(a, b, Div(v, a));
    }
  }

  // Or-ing below the low zero bits is adding.
  lemma {:induction false} OrDisjoint(x: nat, k: nat, y: nat)
    requires y < Pow2(k)
    ensures BitOr(x * Pow2(k), y) == x * Pow2(k) + y
  {
    if k == 0 {
      OrZero(x);
    } else {
      var t := x * Pow2(k - 1);
      assert x * Pow2(k) == 2 * t;
      OrDisjoint(x, k - 1, y / 2);
    }
  }

  lemma {:induction false} OrZero(x: nat)
    ensures BitOr(x, 0) == x
  {
    if x > 0 {
      OrZero(x / 2);
    }
  }

  lemma Pow2Of4()
    ensures Pow2(4) == 16
  {
  }

  lemma {:induction false} Pow2Values()
    ensures Pow2(4) == 0x10 && Pow2(12) == 0x1000 && Pow2(16) == 0x1_0000 && Pow2(32) == 0x1_0000_0000
    ensures Pow2(48) == 0x1_0000_0000_0000
    ensures Pow2(64) == 0x1_0000_0000_0000_0000
    ensures Pow2(76) == 0x1000_0000_0000_0000_0000
    ensures Pow2(80) == 0x1_0000_0000_0000_0000_0000
    ensures Pow2(96) == 0x1_0000_0000_0000_0000_0000_0000
    ensures Pow2(112) == 0x1_0000_0000_0000_0000_0000_0000_0000
    ensures Pow2(128) == 0x1_0000_0000_0000_0000_0000_0000_0000_0000
  {
    Pow2Of4();
    hide Pow2;
    Pow2Add(4, 4);
    Pow2Add(8, 8);
    Pow2Add(4, 8);
    Pow2Add(16, 16);
    Pow2Add(32, 16);
    Pow2Add(32, 32);
    Pow2Add(64, 12);
    Pow2Add(64, 16);
    Pow2Add(64, 32);
    Pow2Add(64, 48);
    Pow2Add(64, 64);
  }
}
