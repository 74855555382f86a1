/** Big integers of `dtoa.c`: arrays of 32-bit words that are updated in place, with 64-bit
      intermediates. */
module Bigints {
  import opened Bits
  import opened BigWords

  class Bigint {
    const k: nat
    const x: array<Word>
    var sign: bool
    var wds: nat

    /** No word at the top is zero; zero has one word, or none. */
    predicate Valid()
      reads this, x
    {
      x.Length == Exp2(k) && wds <= x.Length && (wds > 1 ==> x[wds - 1] != 0) && (wds == 0 ==> x[0] == 0)
    }

    ghost function Value(): nat
      requires wds <= x.Length
      reads this, x
    {
      Val(x[..wds])
    }

    /** `Balloc`. */
    constructor (k: nat)
      ensures this.k == k && x.Length == Exp2(k) && fresh(x) && !sign && wds == 0
    {
      this.k := k;
      x := new Word[Exp2(k)];
      sign, wds := false, 0;
    }
  }

  /** `Balloc` for one bit more, and `Bcopy`. */
  method Grown(b: Bigint) returns (r: Bigint)
    requires b.x.Length == Exp2(b.k) && b.wds <= b.x.Length
    ensures fresh(r) && fresh(r.x) && r.x.Length == Exp2(r.k) && r.k == b.k + 1
    ensures r.wds == b.wds && r.sign == b.sign && r.x[..r.wds] == b.x[..b.wds]
  {
    r := new Bigint(b.k + 1);
    r.sign, r.wds := b.sign, b.wds;
    var i := 0;
    while i < b.wds
      invariant i <= b.wds <= b.x.Length < r.x.Length
      invariant r.x[..i] == b.x[..i]
      modifies r.x
    {
      r.x[i] := b.x[i];
      i := i + 1;
    }
  }

  // ----- multadd -----

  /** A 64-bit intermediate does not overflow, and the carry is one word. */
  lemma CarryFits(w: Word, m: Word, carry: Word)
    ensures w * m + carry < WIDE && (w * m + carry) / BASE < BASE
  {
    assert w * m <= (BASE - 1) * (BASE - 1) by {
      Times(w, BASE - 1, m);
      Times(m, BASE - 1, BASE - 1);
    }
  }

  /** One turn of the loop of `multadd`. */
  method MultWord(x: array<Word>, i: nat, m: Word, carry: Word) returns (c: Word)
    requires i < x.Length
    modifies x
    ensures x[..i] == old(x[..i]) && x[i + 1..] == old(x[i + 1..])
    ensures x[i] + c * BASE == old(x[i]) * m + carry
  {
    CarryFits(x[i], m, carry);
    var y := x[i] * m + carry;
    c := y / BASE;
    x[i] := y % BASE;
  }

  lemma MultTurn(s: seq<Word>, was: seq<Word>, i: nat, m: nat, a: nat, carry: nat, c: nat)
    requires i < |s| == |was|
    requires Val(s[..i]) + carry * Pow(i) == Val(was[..i]) * m + a
    requires s[i] + c * BASE == was[i] * m + carry
    ensures Val(s[..i + 1]) + c * Pow(i + 1) == Val(was[..i + 1]) * m + a
  {
    ValPrefix(s, i);
    ValPrefix(was, i);
    var p, w := Pow(i), was[i];
    assert Pow(i + 1) == BASE * p;
    MultSums(Val(s[..i]), Val(was[..i]), s[i], w, carry, c, m, a, p);
  }

  lemma MultSums(lo': nat, lo: nat, w': nat, w: nat, carry: nat, c: nat, m: nat, a: nat, p: nat)
    requires lo' + carry * p == lo * m + a && w' + c * BASE == w * m + carry
    ensures lo' + w' * p + c * (BASE * p) == (lo + w * p) * m + a
  {
    Times(w', c * BASE, p);
    Times(w * m, carry, p);
    Times(lo, w * p, m);
    TimesTimes(w, m, p);
    TimesTimes(c, BASE, p);
  }

  /** The loop of `multadd` over the words in use: it is entered once even if there are none. */
  method MultWords(x: array<Word>, wds: nat, m: Word, a: Word) returns (carry: Word)
    requires x.Length > 0 && wds <= x.Length
    modifies x
    ensures wds > 0 ==> Val(x[..wds]) + carry * Pow(wds) == old(Val(x[..wds])) * m + a && x[wds..] == old(x[wds..])
    ensures wds == 0 && old(x[0]) == 0 ==> carry == 0 && x[0] == a
  {
    hide Val;
    ghost var was := x[..];
    assert Pow(0) == 1 && Val([]) == 0 by { ValNone(); }
    carry := MultWord(x, 0, m, a);
    MultTurn(x[..], was, 0, m, a, a, carry);
    assert x[..][..0] == [] && was[..0] == [];
    hide Pow;
    var i := 1;
    while i < wds
      invariant 0 < i && (i <= wds || i == 1)
      invariant Val(x[..][..i]) + carry * Pow(i) == Val(was[..i]) * m + a
      invariant forall j :: i <= j < x.Length ==> x[j] == was[j]
      invariant i == 1 ==> x[0] + carry * BASE == was[0] * m + a
    {
      ghost var before := x[..];
      var c := MultWord(x, i, m, carry);
      assert x[..][..i] == before[..i];
      MultTurn(x[..], was, i, m, a, carry, c);
      carry := c;
      i := i + 1;
    }
    assert wds > 0 ==> x[..][..wds] == x[..wds] && was[..wds] == old(x[..wds]);
  }

  /** Without a zero word at the top, a number of n words is at least the (n-1)-th power. */
  lemma TopWord(s: seq<Word>)
    requires s != []
    ensures s[|s| - 1] != 0 <==> Val(s) >= Pow(|s| - 1)
  {
    var n := |s| - 1;
    ValTop(s, n);
    if s[n] != 0 { Times(1, s[n], Pow(n)); }
  }

  /** `multadd`: the number times `m` plus `a`, in place, with one more word if needed. */
  method MultAdd(b: Bigint, m: Word, a: Word) returns (r: Bigint)
    requires b.Valid() && m > 0
    modifies b, b.x
    ensures r == b || (fresh(r) && fresh(r.x))
    ensures old(b.wds) > 0 || a == 0 ==> r.Valid()
    ensures r.wds <= r.x.Length && (r.Value() == old(b.Value()) * m + a <==> old(b.wds) > 0 || a == 0)
    ensures r.sign == old(b.sign) && (old(b.wds) > 0 <==> r.wds > 0)
  {
    hide Val, Pow;
    var wds := b.wds;
    ghost var v := b.Value();
    ValNone();
    if wds > 1 { TopWord(b.x[..wds]); }
    var carry := MultWords(b.x, wds, m, a);
    r := b;
    if carry != 0 {
      if wds >= b.x.Length { r := Grown(b); }
      ghost var low := r.x[..wds];
      r.x[wds] := carry;
      r.wds := wds + 1;
      assert r.x[..wds + 1][..wds] == low;
      ValPrefix(r.x[..wds + 1], wds);
      assert r.x[..wds + 1][..wds + 1] == r.x[..wds + 1];
    } else if wds > 1 {
      Times(1, m, v);
      TopWord(r.x[..wds]);
    }
  }

  // ----- cmp -----

  /** `r` has the sign of a - b. */
  predicate Compares(r: int, a: nat, b: nat) {
    (r < 0 <==> a < b) && (r > 0 <==> a > b)
  }

  lemma FewerWords(a: seq<Word>, b: seq<Word>)
    requires |a| < |b| && (|b| > 1 ==> b[|b| - 1] != 0)
    ensures Val(a) < Val(b) || (Val(a) == Val(b) == 0 && |b| == 1)
  {
    if |b| > 1 {
      TopWord(b);
      ValBound(a);
      PowMore(|a|, |b| - 1);
    } else {
      assert a == [];
    }
  }

  lemma FirstDifference(a: seq<Word>, b: seq<Word>, i: nat)
    requires i < |a| == |b| && a[i + 1..] == b[i + 1..] && a[i] < b[i]
    ensures Val(a) < Val(b)
  {
    ValSplit(a, i + 1);
    ValSplit(b, i + 1);
    ValTop(a[..i + 1], i);
    ValTop(b[..i + 1], i);
    Times(a[i] + 1, b[i], Pow(i));
  }

  /** `cmp`.  Two zeros of different numbers of words are not found equal. */
  method Cmp(a: Bigint, b: Bigint) returns (r: int)
    requires a.Valid() && b.Valid() && (a.wds > 0 || b.wds > 0)
    ensures Compares(r, a.Value(), b.Value()) <==> !(a.Value() == b.Value() && a.wds != b.wds)
  {
    hide Val, Pow;
    r := a.wds - b.wds;
    if r != 0 {
      if r < 0 { FewerWords(a.x[..a.wds], b.x[..b.wds]); } else { FewerWords(b.x[..b.wds], a.x[..a.wds]); }
      return;
    }
    var i := a.wds;
    while i > 0
      invariant 0 <= i <= a.wds == b.wds
      invariant a.x[i..a.wds] == b.x[i..b.wds]
    {
      i := i - 1;
      if a.x[i] != b.x[i] {
        ghost var u, v := a.x[..a.wds], b.x[..b.wds];
        assert u[i + 1..] == a.x[i + 1..a.wds] && v[i + 1..] == b.x[i + 1..b.wds];
        if a.x[i] < b.x[i] { FirstDifference(u, v, i); } else { FirstDifference(v, u, i); }
        return if a.x[i] < b.x[i] then -1 else 1;
      }
      assert a.x[i..a.wds] == [a.x[i]] + a.x[i + 1..a.wds];
      assert b.x[i..b.wds] == [b.x[i]] + b.x[i + 1..b.wds];
    }
    assert a.x[..a.wds] == b.x[..b.wds];
    r := 0;
  }

  // ----- diff -----

  /** One turn of a subtraction: 64-bit arithmetic wraps around, and bit 32 is the borrow. */
  function Borrow(a: int): Word {
    (a % WIDE) / BASE % 2
  }

  lemma BorrowFits(a: int)
    requires 0 <= a + BASE && a < BASE
    ensures Borrow(a) == (if a < 0 then 1 else 0)
    ensures (a % WIDE) % BASE == a + Borrow(a) * BASE
  {
    if a >= 0 {
      assert a % WIDE == a;
    } else {
      assert a % WIDE == a + WIDE;
      assert (a + WIDE) / BASE == BASE - 1;
    }
  }

  lemma DiffTurn(c: seq<Word>, a: seq<Word>, b: seq<Word>, i: nat, w: Word, borrow: nat, borrow': nat)
    requires i < |c| && i < |a|
    requires Val(c[..i]) + Val(b) == Val(a[..i]) + borrow * Pow(i)
    requires c[i] == a[i] - w - borrow + borrow' * BASE
    ensures Val(c[..i + 1]) + (Val(b) + w * Pow(i)) == Val(a[..i + 1]) + borrow' * Pow(i + 1)
  {
    ValPrefix(c, i);
    ValPrefix(a, i);
    var p := Pow(i);
    assert Pow(i + 1) == BASE * p;
    hide Val, Pow;
    assert c[i] + w + borrow == a[i] + borrow' * BASE;
    Times(c[i] + w, borrow, p);
    Times(c[i], w, p);
    Times(a[i], borrow' * BASE, p);
    TimesTimes(borrow', BASE, p);
  }

  /** One turn of the loops of `diff`. */
  method DiffWord(x: Word, y: Word, borrow: Word, c: array<Word>, i: nat) returns (b: Word)
    requires borrow <= 1 && i < c.Length
    modifies c
    ensures forall m :: 0 <= m < c.Length && m != i ==> c[m] == old(c[m])
    ensures b <= 1 && c[i] == x - y - borrow + b * BASE
  {
    var z := x - y - borrow;
    BorrowFits(z);
    c[i] := (z % WIDE) % BASE;
    b := Borrow(z);
  }

  /** The larger minus the smaller, word by word, into `c`. */
  method Subtract(a: Bigint, b: Bigint, c: array<Word>)
    requires a.Valid() && b.Valid() && 0 < b.wds <= a.wds <= c.Length && a.Value() > b.Value() && c != a.x && c != b.x
    modifies c
    ensures Val(c[..a.wds]) == a.Value() - b.Value()
  {
    hide Val, Pow, Borrow;
    ghost var u, v := a.x[..a.wds], b.x[..b.wds];
    var borrow: Word := 0;
    var i := 0;
    ValNone();
    while i < b.wds
      invariant 0 <= i <= b.wds && borrow <= 1
      invariant a.x[..a.wds] == u && b.x[..b.wds] == v
      invariant Val(c[..][..i]) + Val(v[..i]) == Val(u[..i]) + borrow * Pow(i)
    {
      ghost var before, e := c[..], borrow;
      borrow := DiffWord(a.x[i], b.x[i], borrow, c, i);
      assert c[..][..i] == before[..i];
      DiffTurn(c[..], u, v[..i], i, b.x[i], e, borrow);
      ValPrefix(v, i);
      i := i + 1;
    }
    assert v[..i] == v;
    while i < a.wds
      invariant b.wds <= i <= a.wds && borrow <= 1
      invariant a.x[..a.wds] == u && b.x[..b.wds] == v
      invariant Val(c[..][..i]) + Val(v) == Val(u[..i]) + borrow * Pow(i)
    {
      ghost var before, e := c[..], borrow;
      borrow := DiffWord(a.x[i], 0, borrow, c, i);
      assert c[..][..i] == before[..i];
      DiffTurn(c[..], u, v, i, 0, e, borrow);
      i := i + 1;
    }
    assert u[..i] == u && c[..][..i] == c[..a.wds];
    ValBound(c[..a.wds]);
    Times(1, borrow, Pow(i));
  }

  /** The number of words in use: from `n` down to the first that is not zero. */
  method Trim(x: array<Word>, n: nat, least: nat) returns (wds: nat)
    requires 0 < n <= x.Length
    requires least <= 1
    ensures wds <= n && Val(x[..wds]) == Val(x[..n]) && (wds > 0 ==> x[wds - 1] != 0 || wds <= least)
    ensures forall i :: wds <= i < n ==> x[i] == 0
    ensures wds >= least
  {
    wds := n;
    while wds > least && x[wds - 1] == 0
      invariant least <= wds <= n
      invariant forall i :: wds <= i < n ==> x[i] == 0
    {
      wds := wds - 1;
    }
    ValZeros(x[..n], wds);
    assert x[..n][..wds] == x[..wds];
  }

  /** `diff`: the distance of two numbers, with the sign of a - b. */
  method Diff(a: Bigint, b: Bigint) returns (c: Bigint)
    requires a.Valid() && b.Valid() && a.wds > 0 && b.wds > 0
    ensures fresh(c) && fresh(c.x) && c.Valid() && c.wds > 0
    ensures c.sign == (a.Value() < b.Value())
    ensures c.Value() == if a.Value() < b.Value() then b.Value() - a.Value() else a.Value() - b.Value()
  {
    hide Val, Pow;
    var i := Cmp(a, b);
    if a.Value() == b.Value() { SameZero(a, b); }
    if i == 0 {
      c := new Bigint(0);
      c.x[0] := 0;
      c.wds := 1;
      ValZero(c.x[..1]);
      return;
    }
    var u, v := a, b;
    if i < 0 { u, v := b, a; }
    LargerIsLonger(u, v);
    c := new Bigint(u.k);
    c.sign := i < 0;
    Subtract(u, v, c.x);
    var wds := Trim(c.x, u.wds, 0);
    c.wds := wds;
    if wds == 0 { assert c.x[..0] == []; ValNone(); }
  }

  lemma ValZero(s: seq<Word>)
    requires s == [0]
    ensures Val(s) == 0
  {
    assert s[..0] == [];
  }

  lemma SameZero(a: Bigint, b: Bigint)
    requires a.Valid() && b.Valid() && a.wds > 0 && b.wds > 0 && a.Value() == b.Value()
    ensures a.wds == b.wds
  {
    if a.wds < b.wds { FewerWords(a.x[..a.wds], b.x[..b.wds]); }
    if b.wds < a.wds { FewerWords(b.x[..b.wds], a.x[..a.wds]); }
  }

  lemma LargerIsLonger(a: Bigint, b: Bigint)
    requires a.Valid() && b.Valid() && a.Value() > b.Value()
    ensures a.wds >= b.wds
  {
    if a.wds < b.wds { FewerWords(a.x[..a.wds], b.x[..b.wds]); }
  }

  // ----- lshift -----

  lemma Exp2Base()
    ensures Exp2(32) == BASE
  {
    assert Exp2(8) == 256;
    Exp2Add(8, 8);
    Exp2Add(16, 16);
  }

  lemma {:induction false} PowIsExp2(n: nat)
    ensures Pow(n) == Exp2(32 * n)
  {
    if n > 0 {
      PowIsExp2(n - 1);
      Exp2Base();
      Exp2Add(32, 32 * (n - 1));
    }
  }

  /** A word shifted left by `k` bits: what stays in the word, and what is shifted out. */
  function Kept(w: Word, k: nat): Word {
    (w * Exp2(k)) % BASE
  }

  function ShiftedOut(w: Word, k: nat): nat
    requires k < 32
  {
    Over(w, Exp2(32 - k))
  }

  /** The bits that stay leave room for the `k` bits shifted out of the word below, so that "or" puts
      them in. */
  lemma ShiftWord(w: Word, k: nat, z: nat)
    requires k < 32 && z < Exp2(k)
    ensures var o := Or(Kept(w, k), z);
            o < BASE && ShiftedOut(w, k) < Exp2(k) <= BASE && o + ShiftedOut(w, k) * BASE == w * Exp2(k) + z
  {
    Exp2Add(k, 32 - k);
    Exp2Base();
    var l := ShiftedBy(w, Exp2(k), Exp2(32 - k), z);
    OrAdds(l, k, z);
    hide Or, Exp2;
    Times(1, Exp2(32 - k), Exp2(k));
  }

  lemma ShiftedBy(w: Word, m: nat, q: nat, z: nat) returns (l: nat)
    requires m * q == BASE && z < m && q > 0
    ensures (w * m) % BASE == l * m && l * m + z < BASE && Over(w, q) < m
    ensures l * m + z + Over(w, q) * BASE == w * m + z
  {
    var h;
    h, l := Divided(w, q);
    ShiftParts(w, m, q, h, l);
    RemainderOf(w * m, h, l * m);
  }

  lemma ShiftParts(w: nat, m: nat, q: nat, h: nat, l: nat)
    requires m * q == BASE && w == h * q + l && l < q && w < BASE && m > 0
    ensures w * m == h * BASE + l * m && l * m <= BASE - m && h < m
  {
    Times(h * q, l, m);
    TimesTimes(h, q, m);
    Times(l, q - 1, m);
    Times(q - 1, 1, m);
    if h >= m { Times(m, h, q); }
  }

  lemma RemainderOf(x: nat, h: nat, l: nat)
    requires x == h * BASE + l && l < BASE
    ensures x % BASE == l && x / BASE == h
  {
  }

  /** One turn of the loop of `lshift`. */
  method ShiftOne(w: Word, k: nat, z: Word, out: array<Word>, at: nat) returns (high: Word)
    requires 0 < k < 32 && z < Exp2(k) && at < out.Length
    modifies out
    ensures forall m :: 0 <= m < out.Length && m != at ==> out[m] == old(out[m])
    ensures out[at] + high * BASE == w * Exp2(k) + z && high < Exp2(k)
  {
    ShiftWord(w, k, z);
    hide Exp2, Or, Kept, ShiftedOut;
    out[at] := Or(Kept(w, k), z);
    high := ShiftedOut(w, k);
  }

  lemma ShiftTurn(s: seq<Word>, was: seq<Word>, i: nat, m: nat, z: nat, high: nat)
    requires |s| == i + 1 && i < |was|
    requires Val(s[..i]) + z * Pow(i) == Val(was[..i]) * m + 0 && s[i] + high * BASE == was[i] * m + z
    ensures Val(s) + high * Pow(i + 1) == Val(was[..i + 1]) * m + 0
  {
    var was' := was[..i + 1];
    assert was'[..i] == was[..i] && s[..i + 1] == s && was'[..i + 1] == was';
    MultTurn(s, was', i, m, 0, z, high);
  }

  /** The loop of `lshift` over the words, `k` bits to the left, into `out` from place `n`. */
  method ShiftWords(x: array<Word>, wds: nat, k: nat, out: array<Word>, n: nat) returns (z: Word)
    requires wds <= x.Length && 0 < k < 32 && n + wds <= out.Length && x != out
    modifies out
    ensures Val(out[n..n + wds]) + z * Pow(wds) == Val(x[..wds]) * Exp2(k)
    ensures forall m :: 0 <= m < n ==> out[m] == old(out[m])
  {
    hide Val, Pow, Exp2, Or;
    ghost var was := x[..wds];
    ValNone();
    z := 0;
    var i := 0;
    assert was[..0] == [] && out[n..n] == [];
    while i < wds
      invariant 0 <= i <= wds && z < Exp2(k) && x[..wds] == was
      invariant forall m :: 0 <= m < n ==> out[m] == old(out[m])
      invariant Val(out[n..n + i]) + z * Pow(i) == Val(was[..i]) * Exp2(k) + 0
    {
      ghost var before := out[n..n + i];
      var high := ShiftOne(x[i], k, z, out, n + i);
      assert out[n..n + i + 1][..i] == before;
      ShiftTurn(out[n..n + i + 1], was, i, Exp2(k), z, high);
      z := high;
      i := i + 1;
    }
    assert was[..wds] == was;
  }

  /** Whole words to the left. */
  lemma ValShifted(s: seq<Word>, n: nat)
    requires n <= |s| && forall i :: 0 <= i < n ==> s[i] == 0
    ensures Val(s) == Val(s[n..]) * Pow(n)
  {
    ValSplit(s, n);
    ValZeros(s[..n], 0);
    assert s[..n][..0] == [];
  }

  lemma ShiftSum(v: nat, n: nat, k: nat)
    ensures v * Exp2(k) * Pow(n) == v * Exp2(32 * n + k)
  {
    PowIsExp2(n);
    Exp2Add(32 * n, k);
    TimesTimes(v, Exp2(k), Exp2(32 * n));
  }

  /** The capacity `lshift` asks for. */
  method Capacity(k: nat, least: nat) returns (k1: nat)
    ensures Exp2(k1) >= least && k1 >= k
  {
    k1 := k;
    var i := Exp2(k);
    while least > i
      invariant i == Exp2(k1) && k1 >= k
      decreases least - i
    {
      k1, i := k1 + 1, 2 * i;
    }
  }

  method ZeroWords(x: array<Word>, n: nat)
    requires n <= x.Length
    modifies x
    ensures forall m :: 0 <= m < n ==> x[m] == 0
  {
    var j := 0;
    while j < n
      invariant 0 <= j <= n && forall m :: 0 <= m < j ==> x[m] == 0
    {
      x[j] := 0;
      j := j + 1;
    }
  }

  /** The words of `lshift` above the zeros; `wds` says how many there are. */
  method ShiftInto(x: array<Word>, n0: nat, k: nat, out: array<Word>, n: nat) returns (wds: nat)
    requires n0 <= x.Length && k < 32 && n + n0 < out.Length && x != out
    modifies out
    ensures n + wds <= out.Length && forall m :: 0 <= m < n ==> out[m] == old(out[m])
    ensures Val(out[n..n + wds]) == Val(x[..n0]) * Exp2(k)
    ensures wds == n0 || (wds == n0 + 1 && out[n + n0] != 0)
  {
    hide Val, Pow, Exp2;
    wds := n0;
    if k != 0 {
      var z := ShiftWords(x, n0, k, out, n);
      ghost var low := out[n..n + n0];
      out[n + n0] := z;
      assert out[n..n + n0] == low;
      if z != 0 {
        wds := n0 + 1;
        WithTop(out[n..n + wds], n0);
        assert out[n..n + wds][..n0] == low;
      } else {
        Times(0, 0, Pow(n0));
      }
    } else {
      CopyWords(x, n0, out, n);
      ExpNone();
    }
  }

  /** A number above zero has words, and the one at the top is not zero. */
  lemma SomeWords(b: Bigint)
    requires b.Valid()
    ensures b.Value() > 0 ==> b.wds > 0 && b.x[b.wds - 1] > 0
  {
    var s := b.x[..b.wds];
    ValNone();
    if s != [] { TopWord(s); }
  }

  /** `lshift`: a new number, `k` bits to the left. */
  method LShift(b: Bigint, k: nat) returns (r: Bigint)
    requires b.Valid() && b.Value() > 0
    ensures fresh(r) && fresh(r.x) && r.Valid() && r.Value() == b.Value() * Exp2(k)
  {
    hide Val, Pow, Exp2;
    SomeWords(b);
    var n := k / 32;
    var k1 := Capacity(b.k, n + b.wds + 1);
    r := new Bigint(k1);
    ZeroWords(r.x, n);
    var wds := ShiftInto(b.x, b.wds, k % 32, r.x, n);
    r.wds := n + wds;
    assert r.x[..r.wds][n..] == r.x[n..n + wds];
    ValShifted(r.x[..r.wds], n);
    ShiftSum(b.Value(), n, k % 32);
    assert 32 * n + k % 32 == k;
    ShiftedTop(b.x[..b.wds], r.x[..r.wds], n, k % 32);
  }

  lemma WithTop(s: seq<Word>, n: nat)
    requires |s| == n + 1
    ensures Val(s) == Val(s[..n]) + s[n] * Pow(n)
  {
    ValPrefix(s, n);
    assert s[..n + 1] == s;
  }

  method CopyWords(x: array<Word>, wds: nat, out: array<Word>, n: nat)
    requires wds <= x.Length && n + wds <= out.Length && x != out
    modifies out
    ensures out[n..n + wds] == x[..wds] && forall m :: 0 <= m < n ==> out[m] == old(out[m])
  {
    var i := 0;
    while i < wds
      invariant 0 <= i <= wds && out[n..n + i] == x[..i] && forall m :: 0 <= m < n ==> out[m] == old(out[m])
    {
      out[n + i] := x[i];
      i := i + 1;
    }
  }

  /** The word at the top of a shifted number is not zero. */
  lemma ShiftedTop(b: seq<Word>, r: seq<Word>, n: nat, k: nat)
    requires b != [] && b[|b| - 1] != 0
    requires |r| == n + |b| || (|r| == n + |b| + 1 && r[|r| - 1] != 0)
    requires Val(r) == Val(b) * Exp2(k) * Pow(n)
    ensures r[|r| - 1] != 0
  {
    hide Val, Pow, Exp2;
    if |r| == n + |b| {
      TopWord(b);
      TopWord(r);
      PowAdd(|b| - 1, n);
      StillAbove(Val(b), Pow(|b| - 1), Exp2(k), Pow(n));
    }
  }

  lemma StillAbove(v: nat, least: nat, m: nat, p: nat)
    requires v >= least && m >= 1
    ensures v * m * p >= least * p
  {
    Times(1, m, v);
    Times(least, v * m, p);
  }

  // ----- mult -----

  lemma RowFits(w: Word, y: Word, c: Word, carry: Word)
    ensures w * y + c + carry < WIDE && (w * y + c + carry) / BASE < BASE
  {
    assert w * y <= (BASE - 1) * (BASE - 1) by {
      Times(w, BASE - 1, y);
      Times(y, BASE - 1, BASE - 1);
    }
  }

  lemma RowTurn(s: seq<Word>, was: seq<Word>, a: seq<Word>, i: nat, y: nat, carry: nat, c: nat)
    requires i < |s| == |was| && i < |a|
    requires Val(s[..i]) + carry * Pow(i) == Val(was[..i]) + Val(a[..i]) * y
    requires s[i] + c * BASE == a[i] * y + was[i] + carry
    ensures Val(s[..i + 1]) + c * Pow(i + 1) == Val(was[..i + 1]) + Val(a[..i + 1]) * y
  {
    ValPrefix(s, i);
    ValPrefix(was, i);
    ValPrefix(a, i);
    RowSums(Val(s[..i]), Val(was[..i]), Val(a[..i]), s[i], was[i], a[i], carry, c, y, Pow(i));
  }

  lemma RowSums(lo': nat, lo: nat, v: nat, w': nat, w: nat, x: nat, carry: nat, c: nat, y: nat, p: nat)
    requires lo' + carry * p == lo + v * y && w' + c * BASE == x * y + w + carry
    ensures lo' + w' * p + c * (BASE * p) == lo + w * p + (v + x * p) * y
  {
    Times(w', c * BASE, p);
    Times(x * y + w, carry, p);
    Times(x * y, w, p);
    Times(v, x * p, y);
    TimesTimes(x, y, p);
    TimesTimes(c, BASE, p);
  }

  method RowWord(c: array<Word>, at: nat, w: Word, y: Word, carry: Word) returns (carry': Word)
    requires at < c.Length
    modifies c
    ensures forall m :: 0 <= m < c.Length && m != at ==> c[m] == old(c[m])
    ensures c[at] + carry' * BASE == w * y + old(c[at]) + carry
  {
    RowFits(w, y, c[at], carry);
    var z := w * y + c[at] + carry;
    carry' := z / BASE;
    c[at] := z % BASE;
  }

  /** One row of the product: `a` times `y` is added to `c` from place `j` on. */
  method AddRow(a: array<Word>, wa: nat, y: Word, c: array<Word>, j: nat) returns (carry: Word)
    requires wa <= a.Length && j + wa <= c.Length && a != c
    modifies c
    ensures forall m :: 0 <= m < j || j + wa <= m < c.Length ==> c[m] == old(c[m])
    ensures Val(c[j..j + wa]) + carry * Pow(wa) == old(Val(c[j..j + wa])) + Val(a[..wa]) * y
  {
    hide Val, Pow;
    ghost var was, u := c[j..j + wa], a[..wa];
    ValNone();
    carry := 0;
    var i := 0;
    assert was[..0] == [] && u[..0] == [] && c[j..j] == [];
    while i < wa
      invariant 0 <= i <= wa && a[..wa] == u
      invariant forall m :: 0 <= m < j || j + i <= m < c.Length ==> c[m] == old(c[m])
      invariant Val(c[j..j + i]) + carry * Pow(i) == Val(was[..i]) + Val(u[..i]) * y
    {
      ghost var before := c[j..j + i];
      var carry' := RowWord(c, j + i, a[i], y, carry);
      ghost var s, was' := c[j..j + i + 1], was[..i + 1];
      assert s[..i] == before && was'[..i] == was[..i] && s[..i + 1] == s && was'[..i + 1] == was';
      RowTurn(s, was', u, i, y, carry, carry');
      carry := carry';
      i := i + 1;
    }
    assert was[..wa] == was && u[..wa] == u;
  }

  /** The rows up to `j` add up to the product with the lower words of `b`. */
  lemma RowsSum(c': seq<Word>, c: seq<Word>, a: nat, b: seq<Word>, j: nat)
    requires j < |b| && j <= |c| && |c'| == |c| + 1
    requires Val(c) == a * Val(b[..j]) && c'[..j] == c[..j]
    requires Val(c'[j..]) == Val(c[j..]) + a * b[j]
    ensures Val(c') == a * Val(b[..j + 1])
  {
    hide Val, Pow;
    ValSplit(c', j);
    ValSplit(c, j);
    ValPrefix(b, j);
    RowSum(Val(c[..j]), Val(c[j..]), a, b[j], Val(b[..j]), Pow(j));
  }

  lemma RowSum(lo: nat, hi: nat, a: nat, y: nat, v: nat, p: nat)
    requires lo + hi * p == a * v
    ensures lo + (hi + a * y) * p == a * (v + y * p)
  {
    Times(hi, a * y, p);
    Times(v, y * p, a);
    TimesTimes(a, y, p);
  }

  /** A row and the word it carries into. */
  method FullRow(a: array<Word>, wa: nat, y: Word, c: array<Word>, j: nat)
    requires wa <= a.Length && j + wa < c.Length && a != c && c[j + wa] == 0
    modifies c
    ensures forall m :: 0 <= m < j || j + wa < m < c.Length ==> c[m] == old(c[m])
    ensures Val(c[j..j + wa + 1]) == old(Val(c[j..j + wa])) + Val(a[..wa]) * y
  {
    hide Val, Pow;
    var carry: Word := 0;
    if y != 0 {
      carry := AddRow(a, wa, y, c, j);
      ghost var row := c[j..j + wa];
      c[j + wa] := carry;
      assert c[j..j + wa + 1][..wa] == row;
    } else {
      assert c[j..j + wa + 1][..wa] == c[j..j + wa];
    }
    WithTop(c[j..j + wa + 1], wa);
  }

  /** The rows of the product, the longer number first. */
  method MultRows(a: array<Word>, wa: nat, b: array<Word>, wb: nat, c: array<Word>)
    requires wa <= a.Length && wb <= b.Length && wa + wb <= c.Length && c != a && c != b
    requires forall i :: 0 <= i < wa + wb ==> c[i] == 0
    modifies c
    ensures Val(c[..wa + wb]) == Val(a[..wa]) * Val(b[..wb])
  {
    hide Val, Pow;
    ghost var u, v := a[..wa], b[..wb];
    ValZeros(c[..wa], 0);
    ValNone();
    assert c[..wa][..0] == [] && v[..0] == [];
    var j := 0;
    while j < wb
      invariant 0 <= j <= wb && b[..wb] == v && a[..wa] == u
      invariant Val(c[..j + wa]) == Val(u) * Val(v[..j])
      invariant forall i :: j + wa <= i < wa + wb ==> c[i] == 0
    {
      ghost var before := c[..j + wa];
      FullRow(a, wa, b[j], c, j);
      assert c[..j + wa + 1][j..] == c[j..j + wa + 1];
      assert c[..j + wa + 1][..j] == c[..j] == before[..j];
      RowsSum(c[..j + wa + 1], before, Val(u), v, j);
      j := j + 1;
    }
    assert v[..j] == v;
  }

  /** `mult`. */
  method Mult(a: Bigint, b: Bigint) returns (c: Bigint)
    requires a.Valid() && b.Valid() && (a.wds > 0 || b.wds > 0)
    ensures fresh(c) && fresh(c.x) && c.Valid() && c.Value() == a.Value() * b.Value()
  {
    hide Val, Pow;
    var u, v := a, b;
    if a.wds < b.wds { u, v := b, a; }
    var wc := u.wds + v.wds;
    c := new Bigint(if wc > u.x.Length then u.k + 1 else u.k);
    assert c.x.Length >= wc;
    ZeroWords(c.x, wc);
    MultRows(u.x, u.wds, v.x, v.wds, c.x);
    Trimmed(c, wc);
  }

  /** The last step of `mult`: no zero words at the top. */
  method Trimmed(c: Bigint, n: nat)
    requires c.x.Length == Exp2(c.k) && 0 < n <= c.x.Length
    modifies c`wds
    ensures c.Valid() && c.Value() == Val(c.x[..n])
  {
    hide Val;
    var wds := Trim(c.x, n, 0);
    c.wds := wds;
  }
}
