/** DES encryption of texts (`lua-crypt.c`), for any S-boxes and any key schedule. */
module Des {
  import opened Wrappers

  type Byte = bv8

  /** The eight S-boxes: box and index to word. */
  type Boxes = (nat, bv32) -> bv32

  /** The two halves of a block, X and Y. */
  datatype Halves = Halves(x: bv32, y: bv32) {
    function Swap(): Halves {
      Halves(y, x)
    }
  }

  // ----- initial and final permutation: swaps of bits between the halves, and turns -----

  function Picked(x: bv32, y: bv32, n: bv32, mask: bv32): bv32
    requires n < 32
  {
    ((x >> n) ^ y) & mask
  }

  function Xor(a: bv32, b: bv32): bv32 {
    a ^ b
  }

  function Up(t: bv32, n: bv32): bv32
    requires n < 32
  {
    t << n
  }

  function SwapDown(h: Halves, n: bv32, mask: bv32): Halves
    requires n < 32
  {
    var t := Picked(h.x, h.y, n, mask);
    Halves(Xor(h.x, Up(t, n)), Xor(h.y, t))
  }

  function SwapUp(h: Halves, n: bv32, mask: bv32): Halves
    requires n < 32
  {
    SwapDown(h.Swap(), n, mask).Swap()
  }

  function Odd(w: bv32): bv32 {
    w & 0xAAAAAAAA
  }

  function Exchange(h: Halves): Halves {
    var t := Odd(Xor(h.x, h.y));
    Halves(Xor(h.x, t), Xor(h.y, t))
  }

  function Left1(w: bv32): bv32 {
    (w << 1) | (w >> 31)
  }

  function Right1(w: bv32): bv32 {
    (w << 31) | (w >> 1)
  }

  /** `DES_IP`. */
  function IP(h: Halves): Halves {
    var a := SwapDown(h, 4, 0x0F0F0F0F);
    var b := SwapDown(a, 16, 0x0000FFFF);
    var c := SwapUp(b, 2, 0x33333333);
    var d := SwapUp(c, 8, 0x00FF00FF);
    var e := Exchange(Halves(d.x, Left1(d.y)));
    Halves(Left1(e.x), e.y)
  }

  /** `DES_FP`. */
  function FP(h: Halves): Halves {
    var e := Exchange(Halves(Right1(h.x), h.y));
    var d := SwapUp(Halves(e.x, Right1(e.y)), 8, 0x00FF00FF);
    var c := SwapUp(d, 2, 0x33333333);
    var b := SwapDown(c, 16, 0x0000FFFF);
    SwapDown(b, 4, 0x0F0F0F0F)
  }

  lemma XorTwice(x: bv32, t: bv32)
    ensures Xor(Xor(x, t), t) == x
  {
  }

  /** The masks select bits that do not meet after the shift: the same bits are picked again. */
  lemma Picked4(x: bv32, y: bv32)
    ensures var t := Picked(x, y, 4, 0x0F0F0F0F); Picked(Xor(x, Up(t, 4)), Xor(y, t), 4, 0x0F0F0F0F) == t
  {
  }

  lemma Picked16(x: bv32, y: bv32)
    ensures var t := Picked(x, y, 16, 0x0000FFFF); Picked(Xor(x, Up(t, 16)), Xor(y, t), 16, 0x0000FFFF) == t
  {
  }

  lemma Picked2(x: bv32, y: bv32)
    ensures var t := Picked(x, y, 2, 0x33333333); Picked(Xor(x, Up(t, 2)), Xor(y, t), 2, 0x33333333) == t
  {
  }

  lemma Picked8(x: bv32, y: bv32)
    ensures var t := Picked(x, y, 8, 0x00FF00FF); Picked(Xor(x, Up(t, 8)), Xor(y, t), 8, 0x00FF00FF) == t
  {
  }

  lemma SwapTwice(h: Halves, n: bv32, mask: bv32)
    requires n < 32
    requires var t := Picked(h.x, h.y, n, mask); Picked(Xor(h.x, Up(t, n)), Xor(h.y, t), n, mask) == t
    ensures SwapDown(SwapDown(h, n, mask), n, mask) == h
  {
    hide Picked, Up, Xor;
    var t := Picked(h.x, h.y, n, mask);
    XorTwice(h.x, Up(t, n));
    XorTwice(h.y, t);
  }

  lemma Back4(h: Halves)
    ensures SwapDown(SwapDown(h, 4, 0x0F0F0F0F), 4, 0x0F0F0F0F) == h
  {
    hide Picked, Up, Xor, SwapDown;
    Picked4(h.x, h.y);
    SwapTwice(h, 4, 0x0F0F0F0F);
  }

  lemma Back16(h: Halves)
    ensures SwapDown(SwapDown(h, 16, 0x0000FFFF), 16, 0x0000FFFF) == h
  {
    hide Picked, Up, Xor, SwapDown;
    Picked16(h.x, h.y);
    SwapTwice(h, 16, 0x0000FFFF);
  }

  lemma Back2(h: Halves)
    ensures SwapUp(SwapUp(h, 2, 0x33333333), 2, 0x33333333) == h
  {
    hide Picked, Up, Xor, SwapDown;
    Picked2(h.y, h.x);
    SwapTwice(h.Swap(), 2, 0x33333333);
  }

  lemma Back8(h: Halves)
    ensures SwapUp(SwapUp(h, 8, 0x00FF00FF), 8, 0x00FF00FF) == h
  {
    hide Picked, Up, Xor, SwapDown;
    Picked8(h.y, h.x);
    SwapTwice(h.Swap(), 8, 0x00FF00FF);
  }

  lemma ExchangeTwice(x: bv32, y: bv32)
    ensures var t := Odd(Xor(x, y)); Odd(Xor(Xor(x, t), Xor(y, t))) == t
  {
  }

  lemma ExchangesBack(h: Halves)
    ensures Exchange(Exchange(h)) == h
  {
    hide Xor, Odd;
    ExchangeTwice(h.x, h.y);
    var t := Odd(Xor(h.x, h.y));
    XorTwice(h.x, t);
    XorTwice(h.y, t);
  }

  lemma TurnsBack(w: bv32)
    ensures Left1(Right1(w)) == w && Right1(Left1(w)) == w
  {
  }

  /** The final permutation undoes the initial one, and the other way round. */
  lemma PermutationsInverse(h: Halves)
    ensures FP(IP(h)) == h && IP(FP(h)) == h
  {
    hide SwapDown, SwapUp, Exchange, Left1, Right1;
    var a := SwapDown(h, 4, 0x0F0F0F0F);
    var b := SwapDown(a, 16, 0x0000FFFF);
    var c := SwapUp(b, 2, 0x33333333);
    var d := SwapUp(c, 8, 0x00FF00FF);
    var e := Halves(d.x, Left1(d.y));
    TurnsBack(Exchange(e).x);
    ExchangesBack(e);
    TurnsBack(d.y);
    Back8(c);
    Back2(b);
    Back16(a);
    Back4(h);
    var e' := Halves(Right1(h.x), h.y);
    var d' := SwapUp(Halves(Exchange(e').x, Right1(Exchange(e').y)), 8, 0x00FF00FF);
    var c' := SwapUp(d', 2, 0x33333333);
    var b' := SwapDown(c', 16, 0x0000FFFF);
    Back4(b');
    Back16(c');
    Back2(d');
    Back8(Halves(Exchange(e').x, Right1(Exchange(e').y)));
    TurnsBack(Exchange(e').y);
    ExchangesBack(e');
    TurnsBack(h.x);
  }

  // ----- rounds -----

  /** Six bits of a word, `n` places from its right end. */
  function Low6(t: bv32, n: bv32): bv32
    requires n < 32
  {
    (t >> n) & 0x3F
  }

  function Turned(w: bv32): bv32 {
    (w << 28) | (w >> 4)
  }

  /** What one round adds to a half: two subkeys against the other half. */
  function F(box: Boxes, w: bv32, k0: bv32, k1: bv32): bv32 {
    var t, u := Xor(k0, w), Xor(k1, Turned(w));
    Xor(Xor(Xor(Xor(Xor(Xor(Xor(box(8, Low6(t, 0)), box(6, Low6(t, 8))), box(4, Low6(t, 16))), box(2, Low6(t, 24))),
                    box(7, Low6(u, 0))), box(5, Low6(u, 8))), box(3, Low6(u, 16))), box(1, Low6(u, 24)))
  }

  type Schedule = sk: seq<bv32> | |sk| == 32 witness seq(32, _ => 0)

  /** `DES_ROUND(Y, X)` and `DES_ROUND(X, Y)`, with the four subkeys they take. */
  function Twice(box: Boxes, h: Halves, a: bv32, b: bv32, c: bv32, d: bv32): Halves {
    var x := Xor(h.x, F(box, h.y, a, b));
    Halves(x, Xor(h.y, F(box, x, c, d)))
  }

  function TwoRounds(box: Boxes, sk: Schedule, i: nat, h: Halves): Halves
    requires i < 8
  {
    Twice(box, h, sk[4 * i], sk[4 * i + 1], sk[4 * i + 2], sk[4 * i + 3])
  }

  function Rounds(box: Boxes, sk: Schedule, n: nat, h: Halves): Halves
    requires n <= 8
  {
    if n == 0 then h else TwoRounds(box, sk, n - 1, Rounds(box, sk, n - 1, h))
  }

  /** `des_crypt`, between reading and writing the block. */
  function Crypt(box: Boxes, sk: Schedule, h: Halves): Halves {
    FP(Rounds(box, sk, 8, IP(h)).Swap())
  }

  /** The schedule of `ldesdecode`. */
  function Reversed(sk: Schedule): Schedule {
    seq(32, i requires 0 <= i < 32 => if i % 2 == 0 then sk[30 - i] else sk[32 - i])
  }

  /** Two rounds with the keys in reverse order undo two rounds, with the halves swapped. */
  lemma RoundsBack(box: Boxes, sk: Schedule, i: nat, h: Halves)
    requires i < 8
    ensures TwoRounds(box, Reversed(sk), 7 - i, TwoRounds(box, sk, i, h).Swap()) == h.Swap()
  {
    ReversedKeys(sk, i);
    TwiceBack(box, h, sk[4 * i], sk[4 * i + 1], sk[4 * i + 2], sk[4 * i + 3]);
    hide Twice, Reversed;
  }

  lemma TwiceBack(box: Boxes, h: Halves, a: bv32, b: bv32, c: bv32, d: bv32)
    ensures Twice(box, Twice(box, h, a, b, c, d).Swap(), c, d, a, b) == h.Swap()
  {
    hide F, Xor;
    var x := Xor(h.x, F(box, h.y, a, b));
    XorTwice(h.y, F(box, x, c, d));
    XorTwice(h.x, F(box, h.y, a, b));
  }

  lemma ReversedKeys(sk: Schedule, i: nat)
    requires i < 8
    ensures var r, j := Reversed(sk), 7 - i;
            && r[4 * j] == sk[4 * i + 2] && r[4 * j + 1] == sk[4 * i + 3]
            && r[4 * j + 2] == sk[4 * i] && r[4 * j + 3] == sk[4 * i + 1]
  {
  }

  lemma {:induction false} AllRoundsBack(box: Boxes, sk: Schedule, n: nat, h: Halves)
    requires n <= 8
    ensures Rounds(box, Reversed(sk), n, Rounds(box, sk, 8, h).Swap()) == Rounds(box, sk, 8 - n, h).Swap()
  {
    hide TwoRounds;
    if n > 0 {
      AllRoundsBack(box, sk, n - 1, h);
      RoundsBack(box, sk, 8 - n, Rounds(box, sk, 8 - n, h));
    }
  }

  /** Decryption undoes encryption, for every block, schedule and set of S-boxes. */
  lemma CryptInverse(box: Boxes, sk: Schedule, h: Halves)
    ensures Crypt(box, Reversed(sk), Crypt(box, sk, h)) == h
  {
    hide FP, IP, Rounds, Reversed;
    var m := Rounds(box, sk, 8, IP(h));
    PermutationsInverse(m.Swap());
    AllRoundsBack(box, sk, 8, IP(h));
    RoundsNone(box, sk, IP(h));
    PermutationsInverse(h);
  }

  lemma RoundsNone(box: Boxes, sk: Schedule, h: Halves)
    ensures Rounds(box, sk, 0, h) == h
  {
  }

  // ----- blocks of eight bytes -----

  /** `GET_UINT32`. */
  function Get32(b: seq<Byte>): bv32
    requires |b| == 4
  {
    (b[0] as bv32 << 24) | (b[1] as bv32 << 16) | (b[2] as bv32 << 8) | b[3] as bv32
  }

  /** `PUT_UINT32`. */
  function Put32(w: bv32): (b: seq<Byte>)
    ensures |b| == 4
  {
    [(w >> 24) as Byte, ((w >> 16) & 0xFF) as Byte, ((w >> 8) & 0xFF) as Byte, (w & 0xFF) as Byte]
  }

  lemma PutGet(b: seq<Byte>)
    requires |b| == 4
    ensures Put32(Get32(b)) == b
  {
    BytesOf(b[0], b[1], b[2], b[3]);
  }

  lemma BytesOf(a: Byte, b: Byte, c: Byte, d: Byte)
    ensures var w := (a as bv32 << 24) | (b as bv32 << 16) | (c as bv32 << 8) | d as bv32;
            (w >> 24) == a as bv32 && (w >> 16) & 0xFF == b as bv32 && (w >> 8) & 0xFF == c as bv32 &&
                w & 0xFF == d as bv32
  {
  }

  lemma GetPut(w: bv32)
    ensures Get32(Put32(w)) == w
  {
  }

  /** `des_crypt`: one block. */
  function CryptBlock(box: Boxes, sk: Schedule, b: seq<Byte>): (r: seq<Byte>)
    requires |b| == 8
    ensures |r| == 8
  {
    var r := Crypt(box, sk, Halves(Get32(b[..4]), Get32(b[4..])));
    Put32(r.x) + Put32(r.y)
  }

  lemma BlockInverse(box: Boxes, sk: Schedule, b: seq<Byte>)
    requires |b| == 8
    ensures CryptBlock(box, Reversed(sk), CryptBlock(box, sk, b)) == b
  {
    hide Get32, Put32, Crypt, Reversed;
    var h := Halves(Get32(b[..4]), Get32(b[4..]));
    var r := Crypt(box, sk, h);
    var c := Put32(r.x) + Put32(r.y);
    assert c[..4] == Put32(r.x) && c[4..] == Put32(r.y);
    GetPut(r.x);
    GetPut(r.y);
    CryptInverse(box, sk, h);
    PutGet(b[..4]);
    PutGet(b[4..]);
  }

  /** Block after block. */
  function CryptText(box: Boxes, sk: Schedule, s: seq<Byte>): (r: seq<Byte>)
    requires |s| % 8 == 0
    ensures |r| == |s|
  {
    if s == [] then [] else CryptText(box, sk, s[..|s| - 8]) + CryptBlock(box, sk, s[|s| - 8..])
  }

  lemma {:induction false} TextInverse(box: Boxes, sk: Schedule, s: seq<Byte>)
    requires |s| % 8 == 0
    ensures CryptText(box, Reversed(sk), CryptText(box, sk, s)) == s
  {
    hide CryptBlock, Reversed;
    if s != [] {
      var n := |s| - 8;
      TextInverse(box, sk, s[..n]);
      BlockInverse(box, sk, s[n..]);
      var c := CryptText(box, sk, s);
      assert c[..n] == CryptText(box, sk, s[..n]) && c[n..] == CryptBlock(box, sk, s[n..]);
    }
  }

  // ----- padding -----

  datatype Mode = Iso7816 | Pkcs7

  function Repeated(x: Byte, n: nat): (r: seq<Byte>)
    ensures |r| == n
  {
    seq(n, _ => x)
  }

  /** A small number as a byte. */
  function Code(n: nat): Byte
    requires n <= 8
  {
    match n case 0 => 0 case 1 => 1 case 2 => 2 case 3 => 3 case 4 => 4 case 5 => 5 case 6 => 6 case 7 => 7 case _ => 8
  }

  /** The number in a byte. */
  function Num(b: Byte): (n: nat)
    ensures n < 256
  {
    b as nat
  }

  lemma CodeOf(b: Byte)
    requires Num(b) <= 8
    ensures Code(Num(b)) == b
  {
    if b == 0 {} else if b == 1 {} else if b == 2 {} else if b == 3 {} else if b == 4 {}
    else if b == 5 {} else if b == 6 {} else if b == 7 {} else {}
  }

  lemma NumOf(k: nat)
    requires k <= 8
    ensures Num(Code(k)) == k
  {
  }

  lemma CodesDiffer(j: nat, k: nat)
    requires j <= 8 && k <= 8 && Code(j) == Code(k)
    ensures j == k
  {
  }

  /** `padding_add_iso7816_4` and `padding_add_pkcs7`. */
  function Padding(mode: Mode, offset: nat): (r: seq<Byte>)
    requires offset < 8
    ensures |r| == 8 - offset
  {
    if mode.Iso7816? then [0x80] + Repeated(0, 7 - offset) else Repeated(Code(8 - offset), 8 - offset)
  }

  function Padded(mode: Mode, text: seq<Byte>): (r: seq<Byte>)
    ensures |r| % 8 == 0 && |r| > 0
  {
    text + Padding(mode, |text| % 8)
  }

  /** The last `k` bytes are padding. */
  predicate Ends(mode: Mode, s: seq<Byte>, k: nat) {
    0 < k <= 8 && k <= |s| && s[|s| - k..] == Padding(mode, 8 - k)
  }

  lemma IsoEnds(s: seq<Byte>, k: nat)
    requires Ends(Iso7816, s, k)
    ensures s[|s| - k] == 0x80 && forall m :: |s| - k < m < |s| ==> s[m] == 0
  {
    var p := Padding(Iso7816, 8 - k);
    assert s[|s| - k] == s[|s| - k..][0] == p[0];
    forall m | |s| - k < m < |s| ensures s[m] == 0 { assert s[m] == s[|s| - k..][m - (|s| - k)]; }
  }

  lemma Pkcs7Ends(s: seq<Byte>, k: nat)
    requires Ends(Pkcs7, s, k)
    ensures forall m :: |s| - k <= m < |s| ==> s[m] == Code(k)
  {
    hide Code;
    forall m | |s| - k <= m < |s| ensures s[m] == Code(k) { assert s[m] == s[|s| - k..][m - (|s| - k)]; }
  }

  /** Padding can be told from the text in one way only. */
  lemma EndsOnce(mode: Mode, s: seq<Byte>, j: nat, k: nat)
    requires Ends(mode, s, j) && Ends(mode, s, k)
    ensures j == k
  {
    if mode.Iso7816? {
      IsoEnds(s, j);
      IsoEnds(s, k);
    } else {
      Pkcs7Ends(s, j);
      Pkcs7Ends(s, k);
      assert s[|s| - 1] == Code(j) && s[|s| - 1] == Code(k);
      CodesDiffer(j, k);
    }
  }

  lemma OnlyOne(mode: Mode, s: seq<Byte>, n: nat)
    requires Ends(mode, s, n)
    ensures forall k :: Ends(mode, s, k) ==> n == k
  {
    hide Ends;
    forall k | Ends(mode, s, k) ensures n == k { EndsOnce(mode, s, n, k); }
  }

  /** `padding_remove_iso7816_4`: how many bytes to take off, 0 if the padding is not valid. */
  method RemoveIso(s: seq<Byte>) returns (n: nat)
    requires |s| >= 8
    ensures n > 0 ==> Ends(Iso7816, s, n)
    ensures forall k :: Ends(Iso7816, s, k) ==> n == k
  {
    n := 1;
    var i := 0;
    while i < 8
      invariant 0 <= i <= 8 && n == i + 1
      invariant forall m :: |s| - i <= m < |s| ==> s[m] == 0
    {
      var last := s[|s| - 1 - i];
      if last == 0 {
        n := n + 1;
      } else {
        if last == 0x80 {
          assert s[|s| - n..] == Padding(Iso7816, 8 - n);
          OnlyOne(Iso7816, s, n);
          return;
        }
        NotIso(s, i);
        return 0;
      }
      i := i + 1;
    }
    NotIso(s, 8);
    n := 0;
  }

  /** After zeros comes a byte that is neither zero nor the mark, or there are too many zeros. */
  lemma NotIso(s: seq<Byte>, i: nat)
    requires |s| >= 8 && i <= 8 && forall m :: |s| - i <= m < |s| ==> s[m] == 0
    requires i < 8 ==> s[|s| - 1 - i] != 0 && s[|s| - 1 - i] != 0x80
    ensures forall k :: !Ends(Iso7816, s, k)
  {
    forall k ensures !Ends(Iso7816, s, k) { NotIsoAt(s, i, k); }
  }

  lemma NotIsoAt(s: seq<Byte>, i: nat, k: nat)
    requires |s| >= 8 && i <= 8 && forall m :: |s| - i <= m < |s| ==> s[m] == 0
    requires i < 8 ==> s[|s| - 1 - i] != 0 && s[|s| - 1 - i] != 0x80
    ensures !Ends(Iso7816, s, k)
  {
    if Ends(Iso7816, s, k) { IsoEnds(s, k); }
  }

  /** The last `n` bytes are there and equal. */
  predicate Same(s: seq<Byte>, n: nat)
    requires |s| > 0
  {
    n <= |s| && forall m :: |s| - n <= m < |s| ==> s[m] == s[|s| - 1]
  }

  /** `padding_remove_pkcs7`; None if it reads before the start of the buffer. */
  method RemovePkcs7(s: seq<Byte>) returns (r: Option<nat>)
    requires |s| > 0
    ensures r == Pkcs7Answer(s)
    ensures r == None <==> Num(s[|s| - 1]) > |s| && forall m :: 0 <= m < |s| ==> s[m] == s[|s| - 1]
  {
    var padding := Num(s[|s| - 1]);
    var i := 1;
    while i < padding
      invariant 1 <= i && (i <= padding || padding == 0) && Same(s, i)
    {
      if i == |s| { return None; }
      if s[|s| - 1 - i] != s[|s| - 1] { return Some(0); }
      i := i + 1;
    }
    r := Some(padding);
  }

  /** The number in the last byte tells the padding, if there is any. */
  lemma Pkcs7Tells(s: seq<Byte>, k: nat)
    requires |s| >= 8
    ensures var n := Num(s[|s| - 1]); Ends(Pkcs7, s, k) <==> k == n && 0 < n <= 8 && Same(s, n)
  {
    hide Code, Num;
    var n := Num(s[|s| - 1]);
    if k == n && 0 < n <= 8 && Same(s, n) {
      CodeOf(s[|s| - 1]);
      assert s[|s| - n..] == Padding(Pkcs7, 8 - n);
    }
    if Ends(Pkcs7, s, k) {
      Pkcs7Ends(s, k);
      NumOf(k);
    }
  }

  /** `remove_padding`, and the check of its caller: how many bytes to take off, 0 for the error. */
  method Remove(s: seq<Byte>, mode: Mode) returns (n: nat)
    requires |s| >= 8
    ensures n > 0 ==> Ends(mode, s, n)
    ensures forall k :: Ends(mode, s, k) ==> n == k
  {
    hide Ends, Same;
    if mode.Iso7816? {
      n := RemoveIso(s);
    } else {
      var padding := RemovePkcs7(s);
      n := Accepted(padding);
      Pkcs7Accepted(s);
    }
  }

  /** Reading before the buffer ends in 0 or in a number over its length, so the check of the caller turns it away. */
  function Accepted(padding: Option<nat>): nat {
    if padding == None || padding.value > 8 then 0 else padding.value
  }

  /** What the loop of `padding_remove_pkcs7` answers. */
  function Pkcs7Answer(s: seq<Byte>): Option<nat>
    requires |s| > 0
  {
    var n := Num(s[|s| - 1]);
    if Same(s, |s|) && n > |s| then None else Some(if Same(s, n) then n else 0)
  }

  lemma Pkcs7Accepted(s: seq<Byte>)
    requires |s| >= 8
    ensures var n := Accepted(Pkcs7Answer(s));
            (n > 0 ==> Ends(Pkcs7, s, n)) && forall k :: Ends(Pkcs7, s, k) ==> n == k
  {
    hide Ends, Same, Num;
    Pkcs7Tells(s, Accepted(Pkcs7Answer(s)));
    forall k | Ends(Pkcs7, s, k) ensures Accepted(Pkcs7Answer(s)) == k { Pkcs7Tells(s, k); }
  }

  lemma PaddedEnds(mode: Mode, text: seq<Byte>)
    ensures Ends(mode, Padded(mode, text), 8 - |text| % 8)
  {
    var s := Padded(mode, text);
    assert s[|text|..] == Padding(mode, |text| % 8);
  }

  // ----- texts -----

  /** `ldesencode`. */
  method Encode(box: Boxes, sk: Schedule, text: seq<Byte>, mode: Mode) returns (buffer: array<Byte>)
    ensures fresh(buffer) && buffer[..] == CryptText(box, sk, Padded(mode, text))
  {
    hide CryptBlock, CryptText, Padding;
    ghost var all := Padded(mode, text);
    buffer := new Byte[(|text| + 8) / 8 * 8];
    var i := 0;
    NoText(box, sk);
    while i < |text| - 7
      invariant 0 <= i <= |text| && i % 8 == 0
      invariant buffer[..i] == CryptText(box, sk, all[..i])
    {
      PutBlock(box, sk, buffer, i, text[i..i + 8], all);
      i := i + 8;
    }
    var tail := text[i..] + Padding(mode, |text| - i);
    assert tail == all[i..i + 8];
    PutBlock(box, sk, buffer, i, tail, all);
    assert all[..i + 8] == all && buffer[..i + 8] == buffer[..];
  }

  lemma NoText(box: Boxes, sk: Schedule)
    ensures CryptText(box, sk, []) == []
  {
  }

  /** One block of the text is written to its place. */
  method PutBlock(box: Boxes, sk: Schedule, buffer: array<Byte>, i: nat, b: seq<Byte>, ghost all: seq<Byte>)
    requires |b| == 8 && i % 8 == 0 && i + 8 <= buffer.Length && i + 8 <= |all| && b == all[i..i + 8]
    requires buffer[..i] == CryptText(box, sk, all[..i])
    modifies buffer
    ensures buffer[..i + 8] == CryptText(box, sk, all[..i + 8])
  {
    hide CryptBlock;
    ghost var before := buffer[..i];
    var c := CryptBlock(box, sk, b);
    var j := 0;
    while j < 8
      invariant 0 <= j <= 8 && buffer[..i] == before && buffer[i..i + j] == c[..j]
    {
      buffer[i + j] := c[j];
      j := j + 1;
    }
    assert all[..i + 8][..i] == all[..i] && all[..i + 8][i..] == b;
    assert buffer[..i + 8] == before + c;
  }

  /** The loop of `ldesdecode` over the blocks. */
  method Decrypt(box: Boxes, sk: Schedule, text: seq<Byte>) returns (buffer: array<Byte>)
    requires |text| % 8 == 0
    ensures fresh(buffer) && buffer[..] == CryptText(box, sk, text)
  {
    hide CryptBlock, CryptText;
    buffer := new Byte[|text|];
    var i := 0;
    NoText(box, sk);
    while i < |text|
      invariant 0 <= i <= |text| && i % 8 == 0 && buffer[..i] == CryptText(box, sk, text[..i])
    {
      PutBlock(box, sk, buffer, i, text[i..i + 8], text);
      i := i + 8;
    }
    assert text[..i] == text;
  }

  /** `ldesdecode`; `sk` is the schedule of the key, None the error. */
  method Decode(box: Boxes, sk: Schedule, text: seq<Byte>, mode: Mode) returns (r: Option<seq<Byte>>)
    ensures |text| % 8 != 0 || text == [] ==> r == None
    ensures |text| % 8 == 0 && text != [] ==> Strips(mode, CryptText(box, Reversed(sk), text), r)
  {
    if |text| % 8 != 0 || text == [] { return None; }
    hide CryptText, Ends, Reversed;
    var buffer := Decrypt(box, Reversed(sk), text);
    r := Stripped(buffer[..], mode);
  }

  /** The text without its padding, or the error. */
  method Stripped(s: seq<Byte>, mode: Mode) returns (r: Option<seq<Byte>>)
    requires |s| >= 8
    ensures Strips(mode, s, r)
  {
    hide Ends;
    var n := Remove(s, mode);
    EndsBound(mode, s, n);
    r := if n == 0 then None else Some(s[..|s| - n]);
  }

  /** What is left when the padding goes, or None if there is none. */
  ghost predicate Strips(mode: Mode, s: seq<Byte>, r: Option<seq<Byte>>) {
    (forall k: nat :: Ends(mode, s, k) ==> r == Some(s[..|s| - k])) &&
    (r.Some? ==> exists k: nat :: Ends(mode, s, k))
  }

  lemma EndsBound(mode: Mode, s: seq<Byte>, k: nat)
    ensures Ends(mode, s, k) ==> 0 < k <= 8 && k <= |s|
  {
  }

  /**
   * Decoding what was encoded gives back the text and nothing else, for every set of S-boxes,
   * key schedule, text and mode of padding.
   */
  lemma RoundTrip(box: Boxes, sk: Schedule, text: seq<Byte>, mode: Mode)
    ensures var s := CryptText(box, Reversed(sk), CryptText(box, sk, Padded(mode, text)));
            forall r :: Strips(mode, s, r) <==> r == Some(text)
  {
    hide CryptText, Reversed, Ends, Padding;
    var all := Padded(mode, text);
    TextInverse(box, sk, all);
    PaddedEnds(mode, text);
    OnlyOne(mode, all, 8 - |text| % 8);
    assert all[..|text|] == text;
  }
}
