/** Modular powers in 64-bit arithmetic, for the key exchange of `lua-crypt.c`. */
module PowerModP {
  import opened Wrappers

  const WIDE: nat := 0x1_0000_0000_0000_0000
  const P: nat := 0xffff_ffff_ffff_ffc5

  /** `uint64_t`. */
  type U64 = n: nat | n < WIDE

  function Power(a: nat, b: nat): nat {
    if b == 0 then 1 else a * Power(a, b - 1)
  }

  /** `x` and `y` have the same remainder. */
  predicate Same(x: int, y: int) {
    x % P == y % P
  }

  lemma SameBy(x: int, y: int, k: int)
    requires x == y + k * P
    ensures Same(x, y)
  {
    Remainder(x, y / P + k, y % P);
    Remainder(y, y / P, y % P);
  }

  lemma Remainder(x: int, q: int, r: int)
    requires x == q * P + r && 0 <= r < P
    ensures x % P == r
  {
  }

  lemma SameDiff(x: int, y: int) returns (k: int)
    requires Same(x, y)
    ensures x == y + k * P
  {
    k := x / P - y / P;
  }

  lemma SameProduct(a: int, b: int, c: int, d: int)
    requires Same(a, c) && Same(b, d)
    ensures Same(a * b, c * d)
  {
    var j := SameDiff(a, c);
    var k := SameDiff(b, d);
    assert a * b == c * d + (c * k + j * d + j * k * P) * P;
    SameBy(a * b, c * d, c * k + j * d + j * k * P);
  }

  /** The sum of two remainders, as the loop computes it: no step leaves 64 bits. */
  method AddModP(m: U64, a: U64) returns (r: U64)
    requires m < P && a <= P
    ensures r < P && Same(r, m + a)
  {
    var t: U64 := (P - a) % WIDE;
    if m >= t {
      r := (m - t) % WIDE;
      SameBy(m + a, r, 1);
    } else {
      r := (m + a) % WIDE;
    }
  }

  method Double(a: U64) returns (r: U64)
    requires a <= P
    ensures r <= P && Same(r, 2 * a)
  {
    if a >= (P - a) % WIDE {
      r := ((a * 2) % WIDE - P) % WIDE;
      Wraps(a);
      SameBy(2 * a, r, 1);
    } else {
      r := (a * 2) % WIDE;
    }
  }

  /** Doubling may wrap around; taking off P brings the value back. */
  lemma Wraps(a: nat)
    requires a <= P <= 2 * a
    ensures ((a * 2) % WIDE - P) % WIDE == 2 * a - P
  {
    if a * 2 >= WIDE {
      assert (a * 2) % WIDE == a * 2 - WIDE;
    }
  }

  /** `mul_mod_p`. */
  method MulModP(a: U64, b: U64) returns (m: U64)
    requires a <= P
    ensures m < P && Same(m, a * b)
  {
    hide Same;
    m := 0;
    var x: nat, y: nat := a, b;
    SameBy(0 + a * b, a * b, 0);
    while y > 0
      invariant x <= P && m < P && Same(m + x * y, a * b)
      decreases y
    {
      ghost var before := m + x * y;
      ghost var m0 := m;
      if y % 2 == 1 { m := AddModP(m, x); } else { SameBy(m, m, 0); }
      var x' := Double(x);
      Halved(m0, m, x, x', y);
      Chained(m + x' * (y / 2), before, a * b);
      x, y := x', y / 2;
    }
  }

  lemma Chained(x: int, y: int, z: int)
    requires Same(x, y) && Same(y, z)
    ensures Same(x, z)
  {
  }

  lemma SameSum(a: int, b: int, c: int, d: int)
    requires Same(a, c) && Same(b, d)
    ensures Same(a + b, c + d)
  {
    var j := SameDiff(a, c);
    var k := SameDiff(b, d);
    SameBy(a + b, c + d, j + k);
  }

  /** One bit of the multiplier. */
  lemma Halved(m: nat, m': nat, x: nat, x': nat, y: nat)
    requires Same(m', if y % 2 == 1 then m + x else m) && Same(x', 2 * x)
    ensures Same(m' + x' * (y / 2), m + x * y)
  {
    var h := y / 2;
    SameBy(h, h, 0);
    SameProduct(x', h, 2 * x, h);
    var low := if y % 2 == 1 then m + x else m;
    SameSum(m', x' * h, low, 2 * x * h);
    assert low + 2 * x * h == m + x * y by {
      assert y == 2 * h + y % 2;
      assert x * y == x * (2 * h) + x * (y % 2);
    }
  }

  /** `pow_mod_p`.  For an exponent of 0 the source would not come to an end. */
  method RaiseModP(a: U64, b: U64) returns (t: U64)
    requires a <= P && b > 0
    ensures Same(t, Power(a, b)) && t <= P && (t == P <==> a == P && b == 1)
    decreases b
  {
    hide Same, Power;
    if b == 1 {
      PowerOne(a);
      SameBy(a, a, 0);
      return a;
    }
    SameBy(a, a, 0);
    var h := RaiseModP(a, b / 2);
    t := TimesModP(h, h, Power(a, b / 2), Power(a, b / 2));
    if b % 2 == 1 { t := TimesModP(t, a, Power(a, b / 2) * Power(a, b / 2), a); }
    PowerHalf(a, b);
  }

  method TimesModP(x: U64, y: U64, ghost v: nat, ghost w: nat) returns (t: U64)
    requires x <= P && Same(x, v) && Same(y, w)
    ensures t < P && Same(t, v * w)
  {
    t := MulModP(x, y);
    SameProduct(x, y, v, w);
    hide Same;
    Chained(t, x * y, v * w);
  }

  lemma PowerHalf(a: nat, b: nat)
    ensures Power(a, b) == Power(a, b / 2) * Power(a, b / 2) * (if b % 2 == 1 then a else 1)
  {
    var h := b / 2;
    PowerAdd(a, h, h);
    if b % 2 == 1 {
      assert b == h + h + 1;
      assert Power(a, b) == a * Power(a, h + h);
    } else {
      assert b == h + h;
    }
  }

  lemma PowerOne(a: nat)
    ensures Power(a, 1) == a
  {
  }

  lemma {:induction false} PowerAdd(a: nat, b: nat, c: nat)
    ensures Power(a, b + c) == Power(a, b) * Power(a, c)
    decreases b
  {
    if b > 0 {
      PowerAdd(a, b - 1, c);
      assert a * (Power(a, b - 1) * Power(a, c)) == (a * Power(a, b - 1)) * Power(a, c);
    }
  }

  /** `powmodp`: the power modulo P; only P itself to the power 1 is left as it is. */
  method PowModP(a: U64, b: U64) returns (r: U64)
    requires b > 0
    ensures Same(r, Power(a, b)) && (r == Power(a, b) % P <==> !(a == P && b == 1))
  {
    var x := a;
    if x > P { x := x % P; }
    r := RaiseModP(x, b);
    SamePower(x, a, b);
  }

  lemma {:induction false} SamePower(x: nat, y: nat, b: nat)
    requires Same(x, y)
    ensures Same(Power(x, b), Power(y, b))
  {
    if b > 0 {
      SamePower(x, y, b - 1);
      SameProduct(x, Power(x, b - 1), y, Power(y, b - 1));
    }
  }

  const G: U64 := 5

  lemma {:induction false} PowerTimes(a: nat, b: nat, c: nat)
    ensures Power(Power(a, b), c) == Power(a, b * c)
  {
    if c > 0 {
      PowerTimes(a, b, c - 1);
      PowerAdd(a, b, b * (c - 1));
      assert b * c == b + b * (c - 1);
    }
  }

  /** The inverse of G. */
  const INVERSE: nat := 7378697629483820623

  /** A power of G is never 0 modulo P, so the second call of the exchange gets no 0. */
  lemma {:induction false} NeverZero(b: nat)
    ensures !Same(Power(G, b), 0)
  {
    if b > 0 && Same(Power(G, b), 0) {
      var p := Power(G, b - 1);
      assert G * INVERSE == 1 + 2 * P;
      SameBy(INVERSE, INVERSE, 0);
      SameBy(p, p, 0);
      SameBy(G * INVERSE, 1, 2);
      SameProduct(G * p, INVERSE, 0, INVERSE);
      SameProduct(G * INVERSE, p, 1, p);
      assert G * p * INVERSE == G * INVERSE * p;
      NeverZero(b - 1);
      assert false;
    }
  }

  /** `ldhexchange`; None is the error. */
  method Public(x: U64) returns (r: Option<U64>)
    ensures r == if x == 0 then None else Some(Power(5, x) % 0xffff_ffff_ffff_ffc5)
    ensures x == 1 ==> r == Some(5)
  {
    if x == 0 { return None; }
    var p := PowModP(G, x);
    r := Some(p);
    assert x == 1 ==> Power(5, x) == 5 * Power(5, 0);
  }

  /** `ldhsecret`. */
  method Secret(x: U64, y: U64) returns (r: Option<U64>)
    ensures r == None <==> x == 0 || y == 0
    ensures r.Some? ==> Same(r.value, Power(x, y)) && (r.value < P <==> !(x == P && y == 1))
  {
    if x == 0 || y == 0 { return None; }
    var p := PowModP(x, y);
    r := Some(p);
  }

  lemma OneSide(x: nat, y: nat, g: nat, r: nat)
    requires Same(g, Power(G, x)) && Same(r, Power(g, y)) && r < P
    ensures r == Power(G, x * y) % P
  {
    SamePower(g, Power(G, x), y);
    PowerTimes(G, x, y);
    hide Power;
    Chained(r, Power(g, y), Power(G, x * y));
  }

  lemma Reduced(x: nat, r: nat)
    requires r == x % P
    ensures Same(r, x) && (!Same(x, 0) ==> r > 0) && r < P
  {
  }

  lemma Commute(x: nat, y: nat)
    ensures x * y == y * x
  {
  }

  /** Both sides of the exchange come to the same secret, whatever they chose. */
  method Exchange(x: U64, y: U64) returns (s1: Option<U64>, s2: Option<U64>)
    ensures x == 0 || y == 0 ==> s1 == s2 == None
    ensures x > 0 && y > 0 ==> s1 == s2 == Some(Power(5, x * y) % 0xffff_ffff_ffff_ffc5)
  {
    var gx := Public(x);
    var gy := Public(y);
    if gx == None || gy == None { return None, None; }
    NeverZero(x);
    NeverZero(y);
    hide Power, Same;
    Reduced(Power(G, x), gx.value);
    Reduced(Power(G, y), gy.value);
    s1 := Secret(gx.value, y);
    s2 := Secret(gy.value, x);
    OneSide(x, y, gx.value, s1.value);
    OneSide(y, x, gy.value, s2.value);
    Commute(x, y);
  }
}
