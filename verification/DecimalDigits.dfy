/** Decimal digits of `dtoa.c`, modes 2 and 3: the digits of a quotient, rounded to the nearest with ties
      to even. */
module DecimalDigits {
  import opened Bits
  import opened BigWords
  import opened Bigints
  import opened Quotients

  type Digit = d: nat | d < 10

  function Ten(n: nat): (p: nat)
    ensures p > 0
  {
    if n == 0 then 1 else 10 * Ten(n - 1)
  }

  /** The number that the digits stand for, the highest first. */
  function Num(s: seq<Digit>): nat {
    if s == [] then 0 else 10 * Num(s[..|s| - 1]) + s[|s| - 1]
  }

  /** The same, filled up with zeros to `n` digits. */
  function Filled(s: seq<Digit>, n: nat): nat
    requires |s| <= n
  {
    Num(s) * Ten(n - |s|)
  }

  lemma NumMore(s: seq<Digit>, d: Digit)
    ensures Num(s + [d]) == 10 * Num(s) + d
  {
    assert (s + [d])[..|s|] == s;
  }

  lemma {:induction false} TenAdd(a: nat, b: nat)
    ensures Ten(a + b) == Ten(a) * Ten(b)
    decreases b
  {
    if b > 0 {
      TenAdd(a, b - 1);
      TimesTimes(10, Ten(a), Ten(b - 1));
    }
  }

  // ----- rounding off -----

  lemma {:induction false} NineTail(s: seq<Digit>, n: nat)
    requires n <= |s| && forall i :: n <= i < |s| ==> s[i] == 9
    ensures Num(s) + 1 == (Num(s[..n]) + 1) * Ten(|s| - n)
    decreases |s|
  {
    if n == |s| {
      assert s[..n] == s;
    } else {
      var k := |s| - 1;
      NineTail(s[..k], n);
      assert s[..k][..n] == s[..n];
      TimesTimes(10, Num(s[..n]) + 1, Ten(k - n));
    }
  }

  lemma {:induction false} ZeroTail(s: seq<Digit>, n: nat)
    requires n <= |s| && forall i :: n <= i < |s| ==> s[i] == 0
    ensures Num(s) == Num(s[..n]) * Ten(|s| - n)
    decreases |s|
  {
    if n == |s| {
      assert s[..n] == s;
    } else {
      var k := |s| - 1;
      ZeroTail(s[..k], n);
      assert s[..k][..n] == s[..n];
      TimesTimes(10, Num(s[..n]), Ten(k - n));
    }
  }

  /** One more in the last of `n` digits: nines at the end go, and if all were nines a single one
      remains and the exponent goes up. */
  method RoundUp(buf: array<Digit>, n: nat) returns (len: nat, bumped: bool)
    requires 0 < n <= buf.Length
    modifies buf
    ensures 0 < len <= n && buf[len - 1] != 0 && (old(buf[0]) != 0 ==> buf[0] != 0)
    ensures bumped <==> forall i :: 0 <= i < n ==> old(buf[i]) == 9
    ensures bumped ==> len == 1 && buf[0] == 1 && old(Num(buf[..n])) + 1 == Ten(n)
    ensures !bumped ==> Filled(buf[..len], n) == old(Num(buf[..n])) + 1
  {
    hide Num, Ten;
    ghost var was := buf[..n];
    var s := n;
    s := s - 1;
    while buf[s] == 9
      invariant 0 <= s < n && buf[..n] == was && forall i :: s < i < n ==> was[i] == 9
      decreases s
    {
      if s == 0 {
        buf[0] := 1;
        NineTail(was, 0);
        assert was[..0] == [];
        NumNone();
        return 1, true;
      }
      s := s - 1;
    }
    NineTail(was, s + 1);
    NumLast(was[..s + 1]);
    buf[s] := buf[s] + 1;
    len, bumped := s + 1, false;
    NumLast(buf[..len]);
    assert buf[..len][..s] == was[..s + 1][..s];
  }

  lemma NumNone()
    ensures Num([]) == 0
  {
  }

  lemma NumLast(s: seq<Digit>)
    requires s != []
    ensures Num(s) == 10 * Num(s[..|s| - 1]) + s[|s| - 1]
  {
  }

  /** Zeros at the end go. */
  method TrimZeros(buf: array<Digit>, n: nat) returns (len: nat)
    requires 0 < n <= buf.Length && buf[0] != 0
    ensures 0 < len <= n && buf[len - 1] != 0 && Filled(buf[..len], n) == Num(buf[..n])
  {
    var s := n;
    s := s - 1;
    while buf[s] == 0
      invariant 0 <= s < n && forall i :: s < i < n ==> buf[i] == 0
      decreases s
    {
      s := s - 1;
    }
    len := s + 1;
    ZeroTail(buf[..n], len);
    assert buf[..n][..len] == buf[..len];
  }

  // ----- the digits -----

  /** `q` is nearest to x / d, and even if two are equally near. */
  predicate Nearest(q: nat, x: nat, d: nat) {
    var off := if q * d >= x then q * d - x else x - q * d;
    2 * off <= d && (2 * off == d ==> q % 2 == 0)
  }

  /** What the loop asks before it stops early. */
  lemma ZeroTest(b: Bigint)
    requires b.Valid()
    ensures b.x[0] == 0 && b.wds <= 1 <==> b.Value() == 0
  {
    var s := b.x[..b.wds];
    if s == [] {
      assert Val(s) == 0;
    } else {
      TopWord(s);
      if |s| == 1 { assert s[..0] == []; }
    }
  }

  /** The digits so far times the divisor, and the rest, are the number with as many places. */
  predicate SoFar(s: seq<Digit>, d: nat, rest: nat, v: nat) {
    s != [] && s[0] != 0 && Num(s) * d + rest == v * Ten(|s| - 1) && rest < d
  }

  lemma FirstDigit(v: nat, d: nat, q: Digit)
    requires 0 < d <= v && q == v / d
    ensures SoFar([q], d, v % d, v) && q > 0
  {
    var r := v % d;
    assert v == q * d + r;
    assert [q][..0] == [];
    assert Num([q]) == q && Ten(0) == 1;
    Times(q, 0, d);
  }

  lemma NextDigit(s: seq<Digit>, d: nat, rest: nat, v: nat, q: Digit)
    requires SoFar(s, d, rest, v) && rest > 0 && q == (rest * 10) / d
    ensures SoFar(s + [q], d, (rest * 10) % d, v) && ((rest * 10) % d == 0 ==> q > 0)
  {
    var r := (rest * 10) % d;
    assert rest * 10 == q * d + r;
    NumMore(s, q);
    Times(10 * Num(s), q, d);
    TimesTimes(10, Num(s), d);
    TimesTimes(v, 10, Ten(|s| - 1));
    assert Ten(|s|) == 10 * Ten(|s| - 1);
    if q == 0 { assert q * d == 0; }
  }

  lemma {:induction false} NumBound(s: seq<Digit>)
    ensures Num(s) < Ten(|s|)
  {
    if s != [] { NumBound(s[..|s| - 1]); }
  }

  lemma FilledBound(s: seq<Digit>, n: nat)
    requires |s| <= n
    ensures Filled(s, n) < Ten(n)
  {
    NumBound(s);
    TenAdd(|s|, n - |s|);
    Times(Num(s) + 1, Ten(|s|), Ten(n - |s|));
    Times(Num(s), 1, Ten(n - |s|));
  }

  /** Nothing is left: the digits are exact, however many more are asked for. */
  lemma ExactDigits(s: seq<Digit>, d: nat, v: nat, n: nat)
    requires SoFar(s, d, 0, v) && |s| <= n
    ensures Nearest(Filled(s, n), v * Ten(n - 1), d)
  {
    var k, e := n - |s|, Ten(n - |s|);
    TenAdd(|s| - 1, k);
    TimesTimes(v, Ten(|s| - 1), e);
    TimesTimes(Num(s), e, d);
    assert Filled(s, n) * d == v * Ten(n - 1);
  }

  lemma Parity(s: seq<Digit>)
    requires s != []
    ensures Num(s) % 2 == s[|s| - 1] % 2
  {
    var x := Num(s[..|s| - 1]);
    assert 10 * x == 2 * (5 * x);
  }

  /** The last digit is rounded: `up` is what `dtoa` decides from twice the rest. */
  lemma RoundedDigits(s: seq<Digit>, d: nat, rest: nat, v: nat, up: bool)
    requires SoFar(s, d, rest, v)
    requires up <==> 2 * rest > d || (2 * rest == d && s[|s| - 1] % 2 == 1)
    ensures Nearest(if up then Num(s) + 1 else Num(s), v * Ten(|s| - 1), d)
  {
    Parity(s);
    Times(Num(s), 1, d);
  }

  /** One more digit: ten times the rest is divided. */
  method More(b: Bigint, s: Bigint, ghost digits: seq<Digit>, ghost v: nat) returns (r: Bigint, q: Digit)
    requires b.Valid() && Arranged(s) && b != s && b.x != s.x && b.Value() > 0 && SoFar(digits, s.Value(), b.Value(), v)
    modifies b, b.x
    ensures r.Valid() && (r == b || fresh(r)) && (r.x == b.x || fresh(r.x)) && r != s && r.x != s.x
    ensures Arranged(s) && s.Value() == old(s.Value())
    ensures SoFar(digits + [q], s.Value(), r.Value(), v) && (r.Value() == 0 ==> q != 0)
  {
    hide Val;
    ghost var rest, d := b.Value(), s.Value();
    SoFarBelow(digits, d, rest, v);
    hide SoFar;
    r := MultAdd(b, 10, 0);
    var n := Quorem(r, s);
    DigitFits(rest * 10, d, n);
    q := n;
    NextDigit(digits, d, rest, v, q);
  }

  lemma SoFarBelow(digits: seq<Digit>, d: nat, rest: nat, v: nat)
    requires SoFar(digits, d, rest, v)
    ensures rest < d && digits != [] && digits[0] != 0
  {
  }

  /** The loop that is not of the shortest kind: digits until nothing is left or enough are found. */
  method Generate(b: Bigint, s: Bigint, ilim: nat, buf: array<Digit>) returns (r: Bigint, len: nat)
    requires b.Valid() && Arranged(s) && b != s && b.x != s.x && s.Value() <= b.Value() < 10 * s.Value()
    requires 0 < ilim <= buf.Length
    modifies b, b.x, buf
    ensures r.Valid() && Arranged(s) && s.Value() == old(s.Value())
    ensures 0 < len <= ilim && SoFar(buf[..len], s.Value(), r.Value(), old(b.Value()))
    ensures r.Value() == 0 ==> buf[len - 1] != 0
    ensures r.Value() != 0 ==> len == ilim
  {
    hide Val, SoFar;
    ghost var v, d := b.Value(), s.Value();
    r := b;
    var n := Quorem(r, s);
    DigitFits(v, d, n);
    var q: Digit := n;
    FirstDigit(v, d, q);
    buf[0], len := q, 1;
    assert buf[..1] == [q];
    while true
      invariant r.Valid() && (r == b || fresh(r)) && (r.x == b.x || fresh(r.x)) && r != s && r.x != s.x
      invariant Arranged(s) && s.Value() == d
      invariant 0 < len <= ilim && SoFar(buf[..len], d, r.Value(), v)
      invariant r.Value() == 0 ==> buf[len - 1] != 0
      decreases ilim - len
    {
      ZeroTest(r);
      if (r.x[0] == 0 && r.wds <= 1) || len >= ilim { return; }
      ghost var digits := buf[..len];
      r, q := More(r, s, digits, v);
      buf[len], len := q, len + 1;
      assert buf[..len] == digits + [q];
    }
  }

  lemma DigitFits(v: nat, d: nat, q: nat)
    requires d > 0 && v < 10 * d && q == v / d
    ensures q < 10
  {
    var q', r := Divided(v, d);
    if q >= 10 { Times(10, q, d); }
  }

  /** Digits and round-off, up to `ilim` digits; `bumped` says that the exponent goes up by one. */
  method Digits(b: Bigint, s: Bigint, ilim: nat, buf: array<Digit>) returns (len: nat, bumped: bool)
    requires b.Valid() && Arranged(s) && b != s && b.x != s.x && s.Value() <= b.Value() < 10 * s.Value()
    requires 0 < ilim <= buf.Length
    modifies b, b.x, buf
    ensures 0 < len <= ilim && buf[0] != 0 && buf[len - 1] != 0
    ensures var q := if bumped then Ten(ilim) else Filled(buf[..len], ilim);
            Nearest(q, old(b.Value()) * Ten(ilim - 1), old(s.Value())) && (bumped <==> q == Ten(ilim))
    ensures bumped ==> buf[..len] == [1]
  {
    hide Val, Num, Ten, Nearest, Filled;
    ghost var v, d := b.Value(), s.Value();
    var r;
    r, len := Generate(b, s, ilim, buf);
    bumped := false;
    ghost var digits := buf[..len];
    ZeroTest(r);
    if r.x[0] == 0 && r.wds <= 1 {
      ExactDigits(digits, d, v, ilim);
      FilledBound(digits, ilim);
      return;
    }
    var twice := LShift(r, 1);
    TwoIsTwo();
    Positive(s.x[..s.wds]);
    Comparable(twice, s);
    var j := Cmp(twice, s);
    var up := j > 0 || (j == 0 && buf[len - 1] % 2 == 1);
    RoundedDigits(digits, d, r.Value(), v, up);
    if up {
      len, bumped := RoundUp(buf, ilim);
    } else {
      len := TrimZeros(buf, ilim);
    }
    FilledBound(buf[..len], ilim);
  }

  lemma TwoIsTwo()
    ensures Exp2(1) == 2
  {
  }

  lemma Comparable(a: Bigint, b: Bigint)
    requires a.Valid() && b.Valid() && b.Value() > 0
    ensures b.wds > 0 && (a.Value() == b.Value() ==> a.wds == b.wds)
  {
    SomeWords(b);
    if a.Value() == b.Value() {
      if a.wds < b.wds { FewerWords(a.x[..a.wds], b.x[..b.wds]); }
      if b.wds < a.wds { FewerWords(b.x[..b.wds], a.x[..a.wds]); }
    }
  }

  // ----- from the number to its digits -----

  lemma OffScaled(a: nat, x: nat, d: nat, m: nat)
    requires m > 0 && a >= x
    ensures a * m - x * m == (a - x) * m && a * m >= x * m
    ensures 2 * ((a - x) * m) <= d * m <==> 2 * (a - x) <= d
    ensures 2 * ((a - x) * m) == d * m <==> 2 * (a - x) == d
  {
    var off := a - x;
    Times(off, x, m);
    TimesTimes(2, off, m);
    Less(2 * off, d, m);
    Less(d, 2 * off, m);
  }

  lemma NearestScaled(q: nat, x: nat, d: nat, m: nat)
    requires m > 0
    ensures Nearest(q, x * m, d * m) <==> Nearest(q, x, d)
  {
    TimesTimes(q, d, m);
    if q * d >= x {
      OffScaled(q * d, x, d, m);
    } else {
      OffScaled(x, q * d, d, m);
      Less(q * d, x, m);
    }
  }

  /** Divisor and dividend shifted by as much as `dshift` says, over `b2` and `s2`. */
  method Arrange(b: Bigint, s: Bigint, b2: nat, s2: nat) returns (b': Bigint, s': Bigint, ghost i: nat)
    requires b.Valid() && s.Valid() && b.Value() > 0 && s.Value() > 0 && b != s && b.x != s.x
    ensures b'.Valid() && Arranged(s') && b' != s' && b'.x != s'.x
    ensures b'.Value() == b.Value() * Exp2(b2 + i) && s'.Value() == s.Value() * Exp2(s2 + i)
    ensures (b' == b || (fresh(b') && fresh(b'.x))) && (s' == s || (fresh(s') && fresh(s'.x)))
    ensures b.Value() == old(b.Value()) && s.Value() == old(s.Value())
  {
    hide Val, Exp2;
    ExpNone();
    assert b.Value() * 1 == b.Value() && s.Value() * 1 == s.Value();
    var rv;
    ghost var top;
    rv, top := Dshift(s, s2);
    i := rv;
    b', s' := b, s;
    if b2 + rv > 0 { b' := LShift(b, b2 + rv); }
    if s2 + rv > 0 { s' := LShift(s, s2 + rv); }
    ArrangedTop(s', top);
  }

  datatype Mode = Significant | Fixed

  /** `ilim`, the number of digits asked for, when the exponent of the first digit is `k`: modes 2 and 3. */
  function Limit(mode: Mode, ndigits: int, k: int): int {
    match mode
    case Significant => if ndigits <= 0 then 1 else ndigits
    case Fixed => ndigits + k + 1
  }

  /** The digits, the first for 10^k', are x / y * 10^k rounded to the nearest multiple of 10^(k+1-n). */
  predicate Rounds(digits: seq<Digit>, k': int, x: nat, y: nat, k: int, n: int) {
    |digits| <= n + k' - k &&
    Nearest(Filled(digits, n + k' - k), x * Ten(if n > 0 then n - 1 else 0), y * Ten(if n > 0 then 0 else 1 - n))
  }

  /** The estimate of the exponent is checked: lowered if the quotient is below one. */
  method LowerExponent(b: Bigint, s: Bigint, kCheck: bool, k: int) returns (r: Bigint, k': int)
    requires b.Valid() && Arranged(s) && b != s && b.x != s.x && b.Value() > 0
    requires b.Value() < 10 * s.Value() && s.Value() <= 10 * b.Value() && (!kCheck ==> s.Value() <= b.Value())
    modifies b, b.x
    ensures r.Valid() && Arranged(s) && r != s && r.x != s.x && s.Value() == old(s.Value())
    ensures (r == b || fresh(r)) && (r.x == b.x || fresh(r.x)) && s.Value() <= r.Value() < 10 * s.Value()
    ensures var e := if old(b.Value()) < s.Value() then 1 else 0; k' == k - e && r.Value() == old(b.Value()) * Ten(e)
  {
    TenIsTen();
    hide Val, Ten;
    r, k' := b, k;
    if kCheck {
      Positive(s.x[..s.wds]);
      Comparable(b, s);
      var j := Cmp(b, s);
      if j < 0 {
        k' := k - 1;
        r := MultAdd(b, 10, 0);
      }
    }
  }

  lemma TenIsTen()
    ensures Ten(0) == 1 && Ten(1) == 10
  {
  }

  /** Fewer than one digit is asked for: is the number above a half of the last place kept? */
  method AboveHalf(b: Bigint, s: Bigint, ilim: int) returns (one: bool)
    requires b.Valid() && Arranged(s) && b != s && b.x != s.x && b.Value() < 10 * s.Value() && ilim <= 0
    modifies s, s.x
    ensures one ==> ilim == 0
    ensures Nearest(if one then 1 else 0, old(b.Value()), old(s.Value()) * Ten(1 - ilim))
  {
    hide Val, Nearest, Ten;
    Positive(s.x[..s.wds]);
    HalfPlace(b.Value(), s.Value(), ilim);
    if ilim < 0 { return false; }
    var t := MultAdd(s, 5, 0);
    Comparable(b, t);
    var j := Cmp(b, t);
    one := j > 0;
  }

  lemma HalfPlace(x: nat, y: nat, n: int)
    requires y > 0 && x < 10 * y && n <= 0
    ensures n < 0 || x <= 5 * y ==> Nearest(0, x, y * Ten(1 - n))
    ensures n == 0 && x > 5 * y ==> Nearest(1, x, y * Ten(1 - n))
  {
    TenIsTen();
    if n < 0 {
      TenAdd(1, 1);
      TenAdd(2, -1 - n);
      Times(1, Ten(-1 - n), 100);
      Times(100, Ten(1 - n), y);
    }
  }

  /** The loop and the round-off, or the cases without them, of `dtoa` in modes 2 and 3. */
  method Finish(b: Bigint, s: Bigint, mode: Mode, ndigits: int, k: int, buf: array<Digit>) returns (len: nat, k': int)
    requires b.Valid() && Arranged(s) && b != s && b.x != s.x && s.Value() <= b.Value() < 10 * s.Value()
    requires buf.Length > 0 && Limit(mode, ndigits, k) <= buf.Length
    modifies b, b.x, s, s.x, buf
    ensures len <= buf.Length && Rounds(buf[..len], k', old(b.Value()), old(s.Value()), k, Limit(mode, ndigits, k))
    ensures len > 0 ==> buf[0] != 0 && buf[len - 1] != 0 && k <= k' <= k + 1
    ensures len == 0 ==> Limit(mode, ndigits, k) <= 0 && k' == -1 - ndigits
  {
    hide Val, Num, Ten, Nearest;
    var ilim := Limit(mode, ndigits, k);
    if ilim <= 0 {
      var one := AboveHalf(b, s, ilim);
      FewDigits();
      if !one { return 0, -1 - ndigits; }
      buf[0] := 1;
      assert buf[..1] == [1];
      return 1, k + 1;
    }
    var bumped;
    ghost var x := b.Value() * Ten(ilim - 1);
    len, bumped := Digits(b, s, ilim, buf);
    k' := if bumped then k + 1 else k;
    if bumped { OneBumped(ilim); }
    TenIsTen();
  }

  lemma FewDigits()
    ensures Filled([], 0) == 0 && Filled([1], 1) == 1
  {
    assert [1][..0] == [] && Num([1]) == 1;
    TenIsTen();
  }

  /** The decimal digits of b * 2^b2 / (s * 2^s2) * 10^k, where the quotient is below ten and, unless the
      exponent `k` was only an estimate, at least one. */
  method Decimal(b: Bigint, s: Bigint, b2: nat, s2: nat, kCheck: bool, k: int, mode: Mode, ndigits: int,
                 buf: array<Digit>)
    returns (len: nat, k': int)
    requires b.Valid() && s.Valid() && b != s && b.x != s.x && s.Value() > 0
    requires var x, y := b.Value() * Exp2(b2), s.Value() * Exp2(s2);
             x < 10 * y && y <= 10 * x && (!kCheck ==> y <= x)
    requires buf.Length > 0 && Limit(mode, ndigits, k) <= buf.Length
    modifies b, b.x, s, s.x, buf
    ensures len <= buf.Length
    ensures var x, y := old(b.Value()) * Exp2(b2), old(s.Value()) * Exp2(s2);
            var e := if x < y then 1 else 0;
            && Rounds(buf[..len], k', x * Ten(e), y, k - e, Limit(mode, ndigits, k - e))
            && (len > 0 ==> buf[0] != 0 && buf[len - 1] != 0 && k - e <= k' <= k - e + 1)
            && (len == 0 ==> Limit(mode, ndigits, k - e) <= 0 && k' == -1 - ndigits)
  {
    hide Val, Exp2, Nearest, Rounds, Ten, Num;
    ghost var v, d := b.Value(), s.Value();
    ghost var x, y := v * Exp2(b2), d * Exp2(s2);
    SomeValue(v, Exp2(b2));
    SomeValue(d, Exp2(s2));
    var r, t, i := Arrange(b, s, b2, s2);
    ScaledBy(v, b2, i);
    ScaledBy(d, s2, i);
    ghost var m := Exp2(i);
    Ratios(x, y, m);
    var ke;
    r, ke := LowerExponent(r, t, kCheck, k);
    ghost var e := k - ke;
    len, k' := Finish(r, t, mode, ndigits, ke, buf);
    RoundsScaled(buf[..len], k', x, Ten(e), y, m, ke, Limit(mode, ndigits, ke));
  }

  lemma SomeValue(v: nat, m: nat)
    requires m > 0
    ensures v * m > 0 <==> v > 0
  {
    Times(1, v, m);
    Times(v, 0, m);
  }

  /** A common factor of the two numbers does not matter. */
  lemma RoundsScaled(digits: seq<Digit>, k': int, x: nat, t: nat, y: nat, m: nat, k: int, n: int)
    requires m > 0 && Rounds(digits, k', x * m * t, y * m, k, n)
    ensures Rounds(digits, k', x * t, y, k, n)
  {
    hide Nearest, Filled, Ten;
    var p, q := Ten(if n > 0 then n - 1 else 0), Ten(if n > 0 then 0 else 1 - n);
    TimesTimes(x, m, t);
    TimesTimes(x * t, m, p);
    TimesTimes(y, m, q);
    NearestScaled(Filled(digits, n + k' - k), x * t * p, y * q, m);
  }

  /** There is one nearest number. */
  lemma NearestOnce(p: nat, q: nat, x: nat, d: nat)
    requires d > 0 && Nearest(p, x, d) && Nearest(q, x, d)
    ensures p == q
  {
    NotAbove(p, q, x, d);
    NotAbove(q, p, x, d);
  }

  lemma NotAbove(p: nat, q: nat, x: nat, d: nat)
    requires d > 0 && Nearest(p, x, d) && Nearest(q, x, d)
    ensures p <= q
  {
    if p > q {
      Times(q + 1, p, d);
      Times(q, 1, d);
      if p > q + 1 { Times(q + 2, p, d); Times(q, 2, d); }
    }
  }

  lemma OneBumped(n: nat)
    requires n > 0
    ensures Filled([1], n + 1) == Ten(n)
  {
    assert [1][..0] == [] && Num([1]) == 1;
  }

  lemma ScaledBy(v: nat, b2: nat, i: nat)
    ensures v * Exp2(b2 + i) == v * Exp2(b2) * Exp2(i)
  {
    Exp2Add(b2, i);
    TimesTimes(v, Exp2(b2), Exp2(i));
  }

  lemma Ratios(x: nat, y: nat, m: nat)
    requires m > 0 && x < 10 * y && y <= 10 * x
    ensures x * m < 10 * (y * m) && y * m <= 10 * (x * m) && (y * m <= x * m <==> y <= x)
  {
    Times(x + 1, 10 * y, m);
    Times(y, 10 * x, m);
    TimesTimes(10, x, m);
    TimesTimes(10, y, m);
    Times(y, x, m);
    Times(x + 1, y, m);
  }
}
