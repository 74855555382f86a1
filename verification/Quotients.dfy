/** `quorem` of `dtoa.c`: one decimal digit of a quotient, and the shift that makes it easy. */
module Quotients {
  import opened Bits
  import opened BigWords
  import opened Bigints

  // ----- the estimate -----

  /** The words at the top give a quotient that is at most one too small. */
  lemma Estimate(b: nat, s: nat, bt: nat, st: nat, p: nat, q: nat)
    requires p > 0 && st >= 10
    requires st * p <= s < (st + 1) * p && bt * p <= b < (bt + 1) * p && b < 10 * s
    requires q == bt / (st + 1)
    ensures q * s <= b < (q + 2) * s && q <= 9
  {
    var r := bt % (st + 1);
    assert bt == q * (st + 1) + r && r <= st;
    BelowEstimate(b, s, bt, st, p, q);
    AboveEstimate(b, s, bt, st, p, q);
  }

  lemma BelowEstimate(b: nat, s: nat, bt: nat, st: nat, p: nat, q: nat)
    requires s < (st + 1) * p && bt * p <= b < 10 * s && q * (st + 1) <= bt
    ensures q * s <= b && q <= 9
  {
    Times(s, (st + 1) * p, q);
    TimesTimes(q, st + 1, p);
    Times(q * (st + 1), bt, p);
    if q >= 10 { Times(10, q, s); }
  }

  lemma AboveEstimate(b: nat, s: nat, bt: nat, st: nat, p: nat, q: nat)
    requires st * p <= s && b < (bt + 1) * p && bt + 1 <= (q + 1) * (st + 1) && q <= 9 && st >= 10
    ensures b < (q + 2) * s
  {
    assert (q + 1) * (st + 1) == (q + 1) * st + (q + 1);
    assert (q + 2) * st == (q + 1) * st + st;
    assert bt + 1 <= (q + 2) * st;
    Times(bt + 1, (q + 2) * st, p);
    TimesTimes(q + 2, st, p);
    Times(st * p, s, q + 2);
  }

  // ----- subtracting a multiple in place -----

  /** One turn: `q` times a word and the carry are taken off a word, with a borrow. */
  method TakeWord(x: array<Word>, i: nat, w: Word, q: Word, carry: Word, borrow: Word) returns (c: Word, d: Word)
    requires i < x.Length && borrow <= 1
    modifies x
    ensures forall m :: 0 <= m < x.Length && m != i ==> x[m] == old(x[m])
    ensures d <= 1 && x[i] + w * q + carry + borrow == old(x[i]) + (c + d) * BASE
  {
    CarryFits(w, q, carry);
    var ys := w * q + carry;
    c := ys / BASE;
    var y := x[i] - ys % BASE - borrow;
    BorrowFits(y);
    d := Borrow(y);
    x[i] := (y % WIDE) % BASE;
  }

  lemma TakeTurn(s: seq<Word>, was: seq<Word>, t: seq<Word>, i: nat, q: nat, e: nat, e': nat)
    requires i < |s| && i < |was| && i < |t|
    requires Val(s[..i]) + Val(t[..i]) * q == Val(was[..i]) + e * Pow(i)
    requires s[i] + t[i] * q + e == was[i] + e' * BASE
    ensures Val(s[..i + 1]) + Val(t[..i + 1]) * q == Val(was[..i + 1]) + e' * Pow(i + 1)
  {
    ValPrefix(s, i);
    ValPrefix(was, i);
    ValPrefix(t, i);
    TakeSums(Val(s[..i]), Val(was[..i]), Val(t[..i]), s[i], was[i], t[i], q, e, e', Pow(i));
  }

  lemma TakeSums(lo': nat, lo: nat, v: nat, w': nat, w: nat, t: nat, q: nat, e: nat, e': nat, p: nat)
    requires lo' + v * q == lo + e * p && w' + t * q + e == w + e' * BASE
    ensures lo' + w' * p + (v + t * p) * q == lo + w * p + e' * (BASE * p)
  {
    Times(w' + t * q, e, p);
    Times(w', t * q, p);
    Times(w, e' * BASE, p);
    Times(v, t * p, q);
    TimesTimes(t, q, p);
    TimesTimes(e', BASE, p);
  }

  /** The loops of `quorem`: `q` times the `n` words of `s` are taken off the `n` words of `x`. */
  method TakeMultiple(x: array<Word>, s: array<Word>, n: nat, q: Word)
    requires n <= x.Length && n <= s.Length && x != s && Val(s[..n]) * q <= Val(x[..n])
    modifies x
    ensures Val(x[..n]) == old(Val(x[..n])) - Val(s[..n]) * q
  {
    hide Val, Pow, Borrow;
    ghost var was, t := x[..n], s[..n];
    ValNone();
    assert was[..0] == [] && t[..0] == [] && x[..0] == [];
    var i, borrow, carry: Word := 0, 0, 0;
    while i < n
      invariant 0 <= i <= n && borrow <= 1 && s[..n] == t
      invariant forall m :: i <= m < n ==> x[m] == was[m]
      invariant Val(x[..i]) + Val(t[..i]) * q == Val(was[..i]) + (carry + borrow) * Pow(i)
    {
      ghost var before, e := x[..i], carry + borrow;
      carry, borrow := TakeWord(x, i, s[i], q, carry, borrow);
      ghost var u := x[..i + 1];
      assert u[..i] == before && u[..i + 1] == u;
      TakeTurn(u, was, t, i, q, e, carry + borrow);
      i := i + 1;
    }
    assert was[..n] == was && t[..n] == t;
    ValBound(x[..n]);
    Times(1, carry + borrow, Pow(n));
  }

  // ----- quorem -----

  /** The divisor as `dshift` arranges it: four zero bits at the top. */
  predicate Arranged(s: Bigint)
    reads s, s.x
  {
    s.Valid() && s.wds > 0 && 0x800_0000 <= s.x[s.wds - 1] < 0x1000_0000
  }

  /** A number below ten times the divisor has no more words. */
  lemma NoLonger(b: seq<Word>, s: seq<Word>)
    requires s != [] && s[|s| - 1] < 0x1000_0000 && Val(b) < 10 * Val(s)
    requires |b| > 1 ==> b[|b| - 1] != 0
    ensures |b| <= |s|
  {
    var n := |s| - 1;
    if |b| > |s| {
      TopWord(b);
      ValTop(s, n);
      PowMore(|s|, |b| - 1);
      assert Pow(|s|) == BASE * Pow(n);
      Times(10 * (s[n] + 1), BASE, Pow(n));
      TimesTimes(10, s[n] + 1, Pow(n));
    }
  }

  /** The number of words after a subtraction, as `quorem` counts them. */
  method Shorten(b: Bigint, n: nat)
    requires n < b.x.Length && b.wds == n + 1 && b.x.Length == Exp2(b.k)
    modifies b`wds
    ensures b.Valid() && b.Value() == old(b.Value())
    ensures b.x[n] != 0 ==> b.wds == n + 1
    ensures b.wds <= n + 1 && (n > 0 ==> b.wds > 0)
  {
    hide Val;
    if b.x[n] == 0 {
      if n == 0 {
        ValZeros(b.x[..1], 0);
        assert b.x[..1][..0] == b.x[..0];
        b.wds := 0;
      } else {
        ValZeros(b.x[..n + 1], n);
        assert b.x[..n + 1][..n] == b.x[..n];
        var wds := Trim(b.x, n, 1);
        b.wds := wds;
      }
    }
  }

  lemma Positive(s: seq<Word>)
    requires s != [] && s[|s| - 1] > 0
    ensures Val(s) > 0
  {
    TopWord(s);
  }

  /** The second subtraction finds as many words as the divisor has. */
  lemma SecondTake(b: Bigint, s: Bigint, n: nat)
    requires b.Valid() && s.Valid() && s.wds == n + 1 && b.wds <= n + 1 && b.Value() >= s.Value() > 0
    ensures b.wds == n + 1
  {
    if b.wds < s.wds { FewerWords(b.x[..b.wds], s.x[..s.wds]); }
  }

  /** The words at the top are divided, and that many times the divisor is taken off. */
  method FirstTake(b: Bigint, s: Bigint, n: nat) returns (q: nat)
    requires b.Valid() && Arranged(s) && b != s && b.x != s.x && b.Value() < 10 * s.Value()
    requires b.wds == s.wds == n + 1
    modifies b`wds, b.x
    ensures b.Valid() && b.wds <= n + 1 && (n > 0 ==> b.wds > 0)
    ensures old(b.Value()) == q * s.Value() + b.Value() && b.Value() < 2 * s.Value() && q <= 9
  {
    hide Val, Pow, Exp2;
    ghost var v, d := b.Value(), s.Value();
    q := Over(b.x[n], s.x[n] + 1);
    ValTop(b.x[..n + 1], n);
    ValTop(s.x[..n + 1], n);
    Estimate(v, d, b.x[n], s.x[n], Pow(n), q);
    Times(q, 2, d);
    if q != 0 {
      TakeMultiple(b.x, s.x, n + 1, q);
      Shorten(b, n);
    }
  }

  /** `quorem`: the quotient is returned and the remainder left in place. */
  method Quorem(b: Bigint, s: Bigint) returns (q: nat)
    requires b.Valid() && Arranged(s) && b != s && b.x != s.x && b.Value() < 10 * s.Value()
    modifies b`wds, b.x
    ensures b.Valid() && q == old(b.Value()) / s.Value() && b.Value() == old(b.Value()) % s.Value()
    ensures b.wds == 0 ==> s.wds == 1 || old(b.wds) == 0
  {
    hide Val, Pow, Exp2;
    ghost var v, d := b.Value(), s.Value();
    NoLonger(b.x[..b.wds], s.x[..s.wds]);
    Positive(s.x[..s.wds]);
    var n := s.wds - 1;
    if b.wds < s.wds {
      FewerWords(b.x[..b.wds], s.x[..s.wds]);
      q := 0;
    } else {
      q := FirstTake(b, s, n);
      if b.Value() >= d { SecondTake(b, s, n); }
      var j := Cmp(b, s);
      if j >= 0 {
        TakeMultiple(b.x, s.x, n + 1, 1);
        q := q + 1;
        Times(q - 1, 1, d);
        Shorten(b, n);
      }
    }
    Division(v, d, q, b.Value());
  }

  // ----- the shift that arranges the divisor -----

  lemma PowersOfTwo()
    ensures Exp2(24) == 0x100_0000 && Exp2(28) == 0x1000_0000 && Exp2(30) == 0x4000_0000 && Exp2(31) == 0x8000_0000
  {
    Factors();
    Exp2Add(16, 8);
    Exp2Add(24, 4);
    Exp2Add(28, 2);
    Exp2Add(30, 1);
  }

  lemma OneMask(x: Word, n: nat, k: nat, mask: nat, p: nat)
    requires x < Exp2(k + n) && p == Exp2(k) && mask == (Exp2(n) - 1) * p
    ensures And(x, mask) == 0 <==> x < p
  {
    HighOnesIs(n, k);
    HighMask(x, n, k);
  }

  /** The masks of `hi0bits` ask whether a word is small. */
  lemma MasksAreBounds(x: Word)
    ensures And(x, 0xffff0000) == 0 <==> x < 0x1_0000
    ensures And(x, 0xff000000) == 0 <==> x < 0x100_0000
    ensures And(x, 0xf0000000) == 0 <==> x < 0x1000_0000
    ensures And(x, 0xc0000000) == 0 <==> x < 0x4000_0000
    ensures And(x, 0x80000000) == 0 <==> x < 0x8000_0000
    ensures x < 0x8000_0000 ==> (And(x, 0x40000000) == 0 <==> x < 0x4000_0000)
  {
    hide Exp2, And;
    Factors();
    PowersOfTwo();
    Exp2Base();
    OneMask(x, 16, 16, 0xffff0000, 0x1_0000);
    OneMask(x, 8, 24, 0xff000000, 0x100_0000);
    OneMask(x, 4, 28, 0xf0000000, 0x1000_0000);
    OneMask(x, 2, 30, 0xc0000000, 0x4000_0000);
    OneMask(x, 1, 31, 0x80000000, 0x8000_0000);
    if x < 0x8000_0000 { OneMask(x, 1, 30, 0x40000000, 0x4000_0000); }
  }

  /** One step of `hi0bits`: the word moves up by `j` bits, by a factor of `f`. */
  lemma Moved(w: nat, k: nat, j: nat, f: nat)
    requires Exp2(j) == f
    ensures w * Exp2(k + j) == w * Exp2(k) * f
  {
    Exp2Add(k, j);
    TimesTimes(w, Exp2(k), f);
  }

  lemma Factors()
    ensures Exp2(0) == 1 && Exp2(1) == 2 && Exp2(2) == 4 && Exp2(4) == 16 && Exp2(8) == 0x100 && Exp2(16) == 0x1_0000
  {
    assert Exp2(4) == 16;
    Exp2Add(4, 4);
    Exp2Add(8, 8);
  }

  /** `hi0bits`: by how much a word can be shifted to the left. */
  method Hi0bits(w: Word) returns (k: nat)
    ensures w == 0 ==> k == 32
    ensures w > 0 ==> k < 32 && BASE / 2 <= w * Exp2(k) < BASE
  {
    hide Exp2, And;
    Factors();
    var x := w;
    k := 0;
    MasksAreBounds(x);
    if And(x, 0xffff0000) == 0 { Moved(w, k, 16, 0x1_0000); k, x := 16, x * 0x1_0000; }
    MasksAreBounds(x);
    if And(x, 0xff000000) == 0 { Moved(w, k, 8, 0x100); k, x := k + 8, x * 0x100; }
    MasksAreBounds(x);
    if And(x, 0xf0000000) == 0 { Moved(w, k, 4, 16); k, x := k + 4, x * 16; }
    MasksAreBounds(x);
    if And(x, 0xc0000000) == 0 { Moved(w, k, 2, 4); k, x := k + 2, x * 4; }
    assert x == w * Exp2(k) && (w > 0 ==> 0x4000_0000 <= x < BASE) && k <= 30;
    MasksAreBounds(x);
    if And(x, 0x80000000) == 0 {
      Moved(w, k, 1, 2);
      k := k + 1;
      if And(x, 0x40000000) == 0 { return 32; }
    }
  }

  /** `dshift`: how much further to shift a number that is to be shifted by `p2`, so that the word at
      the top, at place `top`, has four zero bits. */
  method Dshift(b: Bigint, p2: nat) returns (rv: nat, ghost top: nat)
    requires b.Valid() && b.Value() > 0
    ensures rv < 32
    ensures 0x800_0000 * Pow(top) <= b.Value() * Exp2(p2 + rv) < 0x1000_0000 * Pow(top)
  {
    ghost var v := b.x[..b.wds];
    SomeWords(b);
    hide Val, Pow, Exp2;
    var h := Hi0bits(b.x[b.wds - 1]);
    rv := (h - 4 - p2) % 32;
    var m := Windings(h, p2, rv);
    top := |v| - 1 + m;
    ArrangedBy(v, b.Value() * Exp2(p2 + rv), h, p2 + rv, m);
  }

  lemma Windings(h: int, p2: int, rv: int) returns (m: nat)
    requires 0 <= h < 32 && 0 <= p2 && rv == (h - 4 - p2) % 32
    ensures p2 + rv + 4 == h + 32 * m
  {
    var q := (h - 4 - p2) / 32;
    assert h - 4 - p2 == 32 * q + rv;
    m := -q;
  }

  /** The value of a number whose word at the top has `h` leading zeros, after the shift. */
  lemma ArrangedBy(b: seq<Word>, r: nat, h: nat, t: nat, m: nat)
    requires b != [] && h < 32 && BASE / 2 <= b[|b| - 1] * Exp2(h) < BASE
    requires t + 4 == h + 32 * m && r == Val(b) * Exp2(t)
    ensures 0x800_0000 * Pow(|b| - 1 + m) <= r < 0x1000_0000 * Pow(|b| - 1 + m)
  {
    hide Val;
    var n := |b| - 1;
    var w, v := b[n], Val(b);
    ValTop(b, n);
    assert Exp2(4) == 16;
    Exp2Add(t, 4);
    Exp2Add(h, 32 * m);
    PowIsExp2(m);
    PowAdd(n, m);
    Exp2Add(h, 32 - h);
    Exp2Base();
    hide Exp2, Pow;
    TopBound(w, Exp2(h), Exp2(32 - h));
    ArrangedSums(w, v, Exp2(h), Exp2(t), Pow(n), Pow(m), r);
  }

  lemma Commute(a: nat, b: nat)
    ensures a * b == b * a
  {
  }

  lemma TopBound(w: nat, e: nat, f: nat)
    requires w * e < BASE && e * f == BASE
    ensures (w + 1) * e <= BASE
  {
    Commute(e, f);
    if w >= f { Times(f, w, e); }
    Times(w + 1, f, e);
  }

  lemma ArrangedSums(w: nat, v: nat, e: nat, x: nat, p: nat, q: nat, r: nat)
    requires w * p <= v < (w + 1) * p && BASE / 2 <= w * e && (w + 1) * e <= BASE && e > 0 && q > 0
    requires x * 16 == e * q && r == v * x
    ensures 0x800_0000 * (p * q) <= r < 0x1000_0000 * (p * q)
  {
    Scaled(w, v, e, p, q);
    TimesTimes(v, x, 16);
    Bounded(w * e, (w + 1) * e, r, p * q);
  }

  lemma Bounded(lo: nat, hi: nat, r: nat, m: nat)
    requires BASE / 2 <= lo && hi <= BASE && lo * m <= 16 * r < hi * m
    ensures 0x800_0000 * m <= r < 0x1000_0000 * m
  {
    Times(BASE / 2, lo, m);
    Times(hi, BASE, m);
  }

  lemma Scaled(w: nat, v: nat, e: nat, p: nat, q: nat)
    requires w * p <= v < (w + 1) * p && e > 0 && q > 0
    ensures (w * e) * (p * q) <= v * (e * q) < ((w + 1) * e) * (p * q)
  {
    var f := e * q;
    assert f > 0;
    Times(w * p, v, f);
    Times(v + 1, (w + 1) * p, f);
    Rearranged(w, p, e, q);
    Rearranged(w + 1, p, e, q);
  }

  lemma Rearranged(w: nat, p: nat, e: nat, q: nat)
    ensures (w * p) * (e * q) == (w * e) * (p * q)
  {
    TimesTimes(w * p, e, q);
    TimesTimes(w * e, p, q);
    TimesTimes(w, p, e);
  }

  lemma WordsNeeded(s: seq<Word>, n: nat)
    ensures Val(s) >= Pow(n) ==> |s| > n
    ensures s != [] && s[|s| - 1] != 0 && Val(s) < Pow(n + 1) ==> |s| <= n + 1
  {
    ValBound(s);
    if |s| <= n { PowMore(|s|, n); }
    if s != [] && s[|s| - 1] != 0 {
      TopWord(s);
      if n + 1 < |s| { PowMore(n + 1, |s| - 1); }
    }
  }

  lemma BelowNext(v: nat, n: nat)
    requires 0x800_0000 * Pow(n) <= v < 0x1000_0000 * Pow(n)
    ensures Pow(n) <= v < Pow(n + 1)
  {
    Times(1, 0x800_0000, Pow(n));
    Times(0x1000_0000, BASE, Pow(n));
  }

  /** A shifted number is arranged. */
  lemma ArrangedTop(r: Bigint, n: nat)
    requires r.Valid() && 0x800_0000 * Pow(n) <= r.Value() < 0x1000_0000 * Pow(n)
    ensures Arranged(r)
  {
    hide Val, Pow;
    var s := r.x[..r.wds];
    BelowNext(Val(s), n);
    WordsNeeded(s, n);
    ValTop(s, n);
    Narrow(s[n], Pow(n), Val(s));
  }

  lemma Narrow(w: nat, p: nat, v: nat)
    requires w * p <= v < (w + 1) * p && 0x800_0000 * p <= v < 0x1000_0000 * p
    ensures 0x800_0000 <= w < 0x1000_0000
  {
    if w < 0x800_0000 { Times(w + 1, 0x800_0000, p); }
    if w >= 0x1000_0000 { Times(0x1000_0000, w, p); }
  }
}
