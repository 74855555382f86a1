/** Natural numbers as words of 32 bits, the lowest first (`dtoa.c`). */
module BigWords {
  const BASE: nat := 0x1_0000_0000
  const WIDE: nat := 0x1_0000_0000_0000_0000

  type Word = w: nat | w < BASE

  function Pow(n: nat): (p: nat)
    ensures p > 0
  {
    if n == 0 then 1 else BASE * Pow(n - 1)
  }

  /** The number that the words stand for. */
  function Val(s: seq<Word>): nat {
    if s == [] then 0 else Val(s[..|s| - 1]) + s[|s| - 1] * Pow(|s| - 1)
  }

  lemma ValNone()
    ensures Val([]) == 0 && Pow(0) == 1
  {
  }

  lemma ValPrefix(s: seq<Word>, i: nat)
    requires i < |s|
    ensures Val(s[..i + 1]) == Val(s[..i]) + s[i] * Pow(i)
  {
    assert s[..i + 1][..i] == s[..i];
  }

  lemma Times(a: nat, b: nat, p: nat)
    ensures (a + b) * p == a * p + b * p
    ensures a <= b ==> a * p <= b * p
  {
  }

  lemma TimesTimes(a: nat, b: nat, c: nat)
    ensures a * (b * c) == (a * b) * c == (a * c) * b == b * (a * c)
  {
  }

  lemma {:induction false} ValBound(s: seq<Word>)
    ensures Val(s) < Pow(|s|)
  {
    if s != [] {
      ValBound(s[..|s| - 1]);
      var p, w := Pow(|s| - 1), s[|s| - 1];
      assert Pow(|s|) == BASE * p;
      Times(w, BASE - 1, p);
      Times(1, BASE - 1, p);
    }
  }

  /** The high part of a number. */
  lemma {:induction false} ValSplit(s: seq<Word>, i: nat)
    requires i <= |s|
    ensures Val(s) == Val(s[..i]) + Val(s[i..]) * Pow(i)
    decreases |s|
  {
    if i == |s| {
      assert s[..i] == s && s[i..] == [];
    } else {
      var n := |s| - 1;
      ValSplit(s[..n], i);
      assert s[..n][..i] == s[..i] && s[..n][i..] == s[i..n] && s[i..][..n - i] == s[i..n];
      PowAdd(i, n - i);
      SplitStep(Val(s[..i]), Val(s[i..n]), s[n], Pow(i), Pow(n - i));
    }
  }

  lemma SplitStep(lo: nat, a: nat, w: nat, p: nat, q: nat)
    ensures lo + a * p + w * (p * q) == lo + (a + w * q) * p
  {
    Times(a, w * q, p);
    TimesTimes(w, p, q);
  }

  lemma {:induction false} PowAdd(a: nat, b: nat)
    ensures Pow(a + b) == Pow(a) * Pow(b)
    decreases b
  {
    if b > 0 {
      PowAdd(a, b - 1);
      var x, y := Pow(a), Pow(b - 1);
      assert BASE * (x * y) == x * (BASE * y);
    }
  }

  lemma {:induction false} PowMore(a: nat, b: nat)
    requires a <= b
    ensures Pow(a) <= Pow(b)
  {
    if a < b { PowMore(a, b - 1); }
  }

  /** The word at the top decides between numbers of one length. */
  lemma ValTop(s: seq<Word>, n: nat)
    requires |s| == n + 1
    ensures s[n] * Pow(n) <= Val(s) < (s[n] + 1) * Pow(n)
  {
    ValBound(s[..n]);
    assert (s[n] + 1) * Pow(n) == s[n] * Pow(n) + Pow(n);
  }

  /** Zeros at the top add nothing. */
  lemma {:induction false} ValZeros(s: seq<Word>, n: nat)
    requires n <= |s| && forall i :: n <= i < |s| ==> s[i] == 0
    ensures Val(s) == Val(s[..n])
    decreases |s|
  {
    if n == |s| {
      assert s[..n] == s;
    } else {
      var k := |s| - 1;
      ValZeros(s[..k], n);
      assert s[..k][..n] == s[..n];
    }
  }

  /** A word of 64 bits, cut in two. */
  lemma Halves(y: nat, p: nat)
    ensures (y % BASE) * p + (y / BASE) * (BASE * p) == y * p
  {
    var l, h := y % BASE, y / BASE;
    assert y == h * BASE + l;
    assert (h * BASE + l) * p == h * (BASE * p) + l * p;
  }
}
