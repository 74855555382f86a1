/** Bitwise operators on unsigned words, as functions on numbers. */
module Bits {
  function Exp2(k: nat): (n: nat)
    ensures n > 0
  {
    if k == 0 then 1 else 2 * Exp2(k - 1)
  }

  /** The operator `|`, bit by bit. */
  function Or(a: nat, b: nat): nat
    decreases a + b
  {
    if a == 0 && b == 0 then 0
    else 2 * Or(a / 2, b / 2) + if a % 2 == 1 || b % 2 == 1 then 1 else 0
  }

  /** The operator `&`, bit by bit. */
  function And(a: nat, b: nat): nat {
    if a == 0 || b == 0 then 0
    else 2 * And(a / 2, b / 2) + if a % 2 == 1 && b % 2 == 1 then 1 else 0
  }

  // ----- division -----

  lemma Divided(x: nat, p: nat) returns (q: nat, r: nat)
    requires p > 0
    ensures x == q * p + r && r < p && q == x / p && r == x % p
  {
    q, r := x / p, x % p;
  }

  function Over(a: nat, b: nat): nat
    requires b > 0
  {
    a / b
  }

  lemma Grows(a: nat, c: nat, p: nat)
    ensures a * p + p <= (a + 1 + c) * p
  {
    assert (a + 1 + c) * p == a * p + p + c * p;
  }

  lemma Less(a: nat, b: nat, p: nat)
    ensures a < b ==> a * p + p <= b * p
  {
    if a < b { Grows(a, b - a - 1, p); }
  }

  lemma Division(x: nat, p: nat, q: nat, r: nat)
    requires x == q * p + r && r < p
    ensures x / p == q && x % p == r
  {
    var q', r' := Divided(x, p);
    Less(q, q', p);
    Less(q', q, p);
  }

  lemma Cancel(a: nat, b: nat, p: nat)
    requires p > 0
    ensures a * p == b * p <==> a == b
  {
    Less(a, b, p);
    Less(b, a, p);
  }

  /** Dividing by 2 and then by `p`. */
  lemma Halved(x: nat, p: nat)
    requires p > 0
    ensures x / (2 * p) == x / 2 / p && x % (2 * p) == 2 * (x / 2 % p) + x % 2
  {
    var q, r := Divided(x / 2, p);
    var e := q * (2 * p);
    assert e == 2 * (q * p);
    Division(x, 2 * p, q, 2 * r + x % 2);
  }

  lemma Twice(m: nat, p: nat)
    ensures m * (2 * p) == 2 * (m * p)
  {
  }

  // ----- powers of two -----

  lemma {:induction false} Exp2Add(a: nat, b: nat)
    ensures Exp2(a + b) == Exp2(a) * Exp2(b)
    decreases b
  {
    if b > 0 {
      Exp2Add(a, b - 1);
      Twice(Exp2(a), Exp2(b - 1));
    }
  }

  lemma ExpNone()
    ensures Exp2(0) == 1
  {
  }

  // ----- "or" -----

  lemma {:induction false} OrZero(x: nat)
    ensures Or(x, 0) == x
  {
    if x > 0 { OrZero(x / 2); }
  }

  lemma OrEven(y: nat, z: nat)
    ensures Or(2 * y, z) == 2 * Or(y, z / 2) + z % 2
  {
  }

  /** Bits that do not overlap: "or" adds them. */
  lemma {:induction false} OrAdds(h: nat, k: nat, z: nat)
    requires z < Exp2(k)
    ensures Or(h * Exp2(k), z) == h * Exp2(k) + z
  {
    if k == 0 {
      OrZero(h);
    } else {
      var y := h * Exp2(k - 1);
      Twice(h, Exp2(k - 1));
      OrAdds(h, k - 1, z / 2);
      OrEven(y, z);
    }
  }

  lemma OrOdd(x: nat, p: nat)
    requires p > 0
    ensures Or(x, 2 * p - 1) == 2 * Or(x / 2, p - 1) + 1
  {
  }

  /** A mask of `k` ones leaves the bits above. */
  lemma {:induction false} OrOnes(q: nat, r: nat, k: nat)
    requires r < Exp2(k)
    ensures Or(q * Exp2(k) + r, Exp2(k) - 1) == q * Exp2(k) + Exp2(k) - 1
  {
    hide Or;
    if k == 0 {
      OrZero(q);
    } else {
      OrOnes(q, r / 2, k - 1);
      OrOneMore(q, r, Exp2(k - 1));
    }
  }

  lemma OrOneMore(q: nat, r: nat, p: nat)
    requires p > 0 && r < 2 * p && Or(q * p + r / 2, p - 1) == q * p + p - 1
    ensures Or(q * (2 * p) + r, 2 * p - 1) == q * (2 * p) + 2 * p - 1
  {
    hide Or;
    Twice(q, p);
    var y := q * p;
    assert (2 * y + r) / 2 == y + r / 2;
    OrOdd(2 * y + r, p);
  }

  /** Two numbers agree under a mask of `k` ones exactly when they agree from bit `k` on. */
  lemma MasksCompareLeadingBits(x: nat, y: nat, k: nat)
    ensures Or(x, Exp2(k) - 1) == Or(y, Exp2(k) - 1) <==> x / Exp2(k) == y / Exp2(k)
  {
    hide Or, Exp2;
    var a, r := Divided(x, Exp2(k));
    var b, t := Divided(y, Exp2(k));
    OrOnes(a, r, k);
    OrOnes(b, t, k);
    Cancel(a, b, Exp2(k));
  }

  // ----- "and" -----

  lemma AndOdd(x: nat, p: nat)
    requires p > 0
    ensures And(x, 2 * p - 1) == 2 * And(x / 2, p - 1) + x % 2
  {
  }

  /** The `k` lowest bits are the remainder. */
  lemma {:induction false} AndOnes(x: nat, k: nat)
    ensures And(x, Exp2(k) - 1) == x % Exp2(k)
  {
    if k > 0 {
      AndOnes(x / 2, k - 1);
      hide And;
      Halved(x, Exp2(k - 1));
      AndOdd(x, Exp2(k - 1));
    }
  }

  lemma AndEven(x: nat, y: nat)
    ensures And(x, 2 * y) == 2 * And(x / 2, y)
  {
  }

  /** A mask of `n` ones above `k` zeros. */
  function HighOnes(n: nat, k: nat): nat {
    if k == 0 then Exp2(n) - 1 else 2 * HighOnes(n, k - 1)
  }

  lemma {:induction false} HighOnesIs(n: nat, k: nat)
    ensures HighOnes(n, k) == (Exp2(n) - 1) * Exp2(k)
  {
    if k > 0 {
      HighOnesIs(n, k - 1);
      Twice(Exp2(n) - 1, Exp2(k - 1));
    }
  }

  /** That mask asks whether a word of k + n bits is below 2^k. */
  lemma {:induction false} HighMask(x: nat, n: nat, k: nat)
    requires x < Exp2(k + n)
    ensures And(x, HighOnes(n, k)) == 0 <==> x < Exp2(k)
  {
    if k == 0 {
      AndOnes(x, n);
      Division(x, Exp2(n), 0, x);
    } else {
      AndEven(x, HighOnes(n, k - 1));
      HighMask(x / 2, n, k - 1);
    }
  }
}
