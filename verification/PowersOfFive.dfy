/** `pow5mult` of `dtoa.c`, with the list of powers that it keeps. */
module PowersOfFive {
  import opened Bits
  import opened BigWords
  import opened Bigints

  function Five(n: nat): (p: nat)
    ensures p > 0
  {
    if n == 0 then 1 else 5 * Five(n - 1)
  }

  lemma {:induction false} FiveAdd(a: nat, b: nat)
    ensures Five(a + b) == Five(a) * Five(b)
    decreases b
  {
    if b > 0 {
      FiveAdd(a, b - 1);
      TimesTimes(5, Five(a), Five(b - 1));
    }
  }

  /** The list `p5s`: 5^4, 5^8, 5^16 and so on, each made when it is first needed. */
  class Powers {
    var list: seq<Bigint>

    ghost predicate Valid()
      reads this, list, set c | c in list :: c.x
    {
      forall i :: 0 <= i < |list| ==> list[i].Valid() && list[i].Value() == Five(4 * Exp2(i))
    }

    /** The power after the last of the list. */
    method Next() returns (p: Bigint)
      requires Valid()
      ensures fresh(p) && fresh(p.x) && p.Valid() && p.Value() == Five(4 * Exp2(|list|))
    {
      hide Five, Exp2, Val;
      if list == [] { p := First(); } else { p := Square(list[|list| - 1], |list| - 1); }
    }

    /** The power at place `i`, made if the list ends before it. */
    method Get(i: nat) returns (p: Bigint)
      requires Valid() && i <= |list|
      modifies this
      ensures Valid() && i < |list| && p == list[i] && |list| >= old(|list|)
      ensures list[..old(|list|)] == old(list) && forall c :: c in list && c !in old(list) ==> fresh(c) && fresh(c.x)
    {
      hide Five, Exp2, Val;
      if i < |list| { return list[i]; }
      p := Next();
      list := list + [p];
    }
  }

  /** `i2b` of 625. */
  method First() returns (p: Bigint)
    ensures fresh(p) && fresh(p.x) && p.Valid() && p.Value() == Five(4 * Exp2(0))
  {
    p := new Bigint(1);
    p.x[0] := 625;
    p.wds := 1;
    OneWord(p.x[..1]);
    FiveStart();
  }

  method Square(q: Bigint, i: nat) returns (p: Bigint)
    requires q.Valid() && q.Value() == Five(4 * Exp2(i))
    ensures fresh(p) && fresh(p.x) && p.Valid() && p.Value() == Five(4 * Exp2(i + 1))
  {
    hide Five, Val, Exp2, Tail;
    SomeWords(q);
    p := Mult(q, q);
    FiveSquared(i);
  }

  lemma OneWord(s: seq<Word>)
    requires |s| == 1
    ensures Val(s) == s[0]
  {
    assert s[..0] == [];
  }

  lemma FiveStart()
    ensures Five(4 * Exp2(0)) == 625
  {
    assert Exp2(0) == 1;
    assert Five(4) == 625;
  }

  lemma FiveSquared(i: nat)
    ensures Five(4 * Exp2(i + 1)) == Five(4 * Exp2(i)) * Five(4 * Exp2(i))
  {
    FiveAdd(4 * Exp2(i), 4 * Exp2(i));
  }

  /** The power for the bits of `k` from place `i` of the list on. */
  function Tail(i: nat, k: nat): (p: nat)
    ensures p > 0
  {
    Five(4 * Exp2(i) * k)
  }

  /** What is still to be multiplied, with the lowest bit of `k` done. */
  lemma FiveBit(i: nat, k: nat)
    ensures Tail(i, k) == (if k % 2 == 1 then Five(4 * Exp2(i)) else 1) * Tail(i + 1, k / 2)
  {
    var e, h := 4 * Exp2(i), k / 2;
    assert 4 * Exp2(i + 1) == 2 * e;
    TimesTimes(2, e, h);
    assert k == 2 * h + k % 2;
    if k % 2 == 1 {
      assert e * k == e + 2 * e * h;
      FiveAdd(e, 2 * e * h);
    } else {
      assert e * k == 2 * e * h;
    }
  }

  /** The part of the power below 5^4 is done by `multadd`. */
  method LowPart(b: Bigint, k: nat) returns (r: Bigint)
    requires b.Valid() && b.Value() > 0 && k < 4
    modifies b, b.x
    ensures r.Valid() && (r == b || (fresh(r) && fresh(r.x))) && r.Value() == old(b.Value()) * Five(k)
  {
    assert Five(0) == 1 && Five(1) == 5 && Five(2) == 25 && Five(3) == 125;
    hide Five, Val;
    r := b;
    if k != 0 { r := MultAdd(b, if k == 1 then 5 else if k == 2 then 25 else 125, 0); }
  }

  lemma BitDone(w: nat, w': nat, i: nat, k: nat)
    requires w' == (if k % 2 == 1 then w * Five(4 * Exp2(i)) else w)
    ensures w' * Tail(i + 1, k / 2) == w * Tail(i, k)
  {
    FiveBit(i, k);
    hide Five, Exp2, Tail;
    TimesTimes(w, Five(4 * Exp2(i)), Tail(i + 1, k / 2));
  }

  /** One bit of the exponent. */
  method TakeBit(r: Bigint, p: Bigint, i: nat, k: nat) returns (r': Bigint)
    requires r.Valid() && p.Valid() && r.Value() > 0 && p.Value() == Five(4 * Exp2(i))
    ensures r'.Valid() && r'.Value() > 0
    ensures r'.Value() * Tail(i + 1, k / 2) == r.Value() * Tail(i, k)
  {
    hide Val, Five, Exp2, Tail;
    r' := r;
    if k % 2 == 1 {
      SomeWords(r);
      SomeWords(p);
      r' := Mult(r, p);
      Times(1, r.Value(), p.Value());
    }
    BitDone(r.Value(), r'.Value(), i, k);
  }

  /** The power for one bit is found or made, and used. */
  method NextBit(powers: Powers, r: Bigint, i: nat, k: nat) returns (r': Bigint)
    requires powers.Valid() && i <= |powers.list| && r.Valid() && r.Value() > 0
    modifies powers
    ensures powers.Valid() && i < |powers.list| && r'.Valid() && r'.Value() > 0
    ensures r'.Value() * Tail(i + 1, k / 2) == old(r.Value()) * Tail(i, k)
  {
    hide Val, Five, Exp2, Tail;
    var p := powers.Get(i);
    r' := TakeBit(r, p, i, k);
  }

  /** The part of the power from 5^4 on, bit by bit. */
  method HighPart(powers: Powers, b: Bigint, k: nat) returns (r: Bigint)
    requires powers.Valid() && b.Valid() && b.Value() > 0
    modifies powers
    ensures powers.Valid() && r.Valid() && r.Value() == old(b.Value()) * Tail(0, k)
  {
    hide Five, Val, Exp2, Tail;
    r := b;
    var kk, i := k, 0;
    while kk > 0
      invariant 0 <= i <= |powers.list| && 0 <= kk && powers.Valid() && r.Valid() && r.Value() > 0
      invariant r.Value() * Tail(i, kk) == old(b.Value()) * Tail(0, k)
      decreases kk
    {
      r := NextBit(powers, r, i, kk);
      kk, i := kk / 2, i + 1;
    }
    NoneLeft(i);
  }

  /** `pow5mult`: the number times 5^k. */
  method Pow5Mult(powers: Powers, b: Bigint, k: nat) returns (r: Bigint)
    requires powers.Valid() && b.Valid() && b.Value() > 0
    requires forall c :: c in powers.list ==> c != b && c.x != b.x
    modifies b, b.x, powers
    ensures powers.Valid() && r.Valid() && r.Value() == old(b.Value()) * Five(k)
  {
    hide Five, Val, Exp2, Tail;
    ghost var v := b.Value();
    var l := LowPart(b, k % 4);
    assert powers.Valid();
    Times(1, v, Five(k % 4));
    r := HighPart(powers, l, k / 4);
    Parts(k);
    TimesTimes(v, Five(k % 4), Tail(0, k / 4));
  }

  lemma NoneLeft(i: nat)
    ensures Tail(i, 0) == 1
  {
  }

  lemma Parts(k: nat)
    ensures Five(k % 4) * Tail(0, k / 4) == Five(k)
  {
    assert Exp2(0) == 1;
    FiveAdd(k % 4, 4 * (k / 4));
  }
}
