/** DES bit by bit, as FIPS 46-3 describes it, and the words of `des_crypt` (`lua-crypt.c`) against it.
    Bits are numbered from the left, from 0; the S-boxes, with the permutation after them, are given as
    words, as in the source. */
module DesBits {
  import opened Wrappers
  import opened Des

  // ----- the bits of a word, of a byte and of a block -----

  /** The mask of bit `i` of a word. */
  function Mask(i: nat): bv32
    requires i < 32
  {
    match i
    case 0 => 0x80000000
    case 1 => 0x40000000
    case 2 => 0x20000000
    case 3 => 0x10000000
    case 4 => 0x08000000
    case 5 => 0x04000000
    case 6 => 0x02000000
    case 7 => 0x01000000
    case 8 => 0x00800000
    case 9 => 0x00400000
    case 10 => 0x00200000
    case 11 => 0x00100000
    case 12 => 0x00080000
    case 13 => 0x00040000
    case 14 => 0x00020000
    case 15 => 0x00010000
    case 16 => 0x00008000
    case 17 => 0x00004000
    case 18 => 0x00002000
    case 19 => 0x00001000
    case 20 => 0x00000800
    case 21 => 0x00000400
    case 22 => 0x00000200
    case 23 => 0x00000100
    case 24 => 0x00000080
    case 25 => 0x00000040
    case 26 => 0x00000020
    case 27 => 0x00000010
    case 28 => 0x00000008
    case 29 => 0x00000004
    case 30 => 0x00000002
    case 31 => 0x00000001
  }

  predicate Has(w: bv32, mask: bv32) {
    w & mask != 0
  }

  predicate Bit(w: bv32, i: nat)
    requires i < 32
  {
    Has(w, Mask(i))
  }

  lemma Masks0()
    ensures Mask(0) == 0x80000000 && Mask(1) == 0x40000000 && Mask(2) == 0x20000000 && Mask(3) == 0x10000000 &&
            Mask(4) == 0x08000000 && Mask(5) == 0x04000000 && Mask(6) == 0x02000000 && Mask(7) == 0x01000000
  {
  }

  lemma Masks1()
    ensures Mask(8) == 0x00800000 && Mask(9) == 0x00400000 && Mask(10) == 0x00200000 && Mask(11) == 0x00100000 &&
            Mask(12) == 0x00080000 && Mask(13) == 0x00040000 && Mask(14) == 0x00020000 && Mask(15) == 0x00010000
  {
  }

  lemma Masks2()
    ensures Mask(16) == 0x00008000 && Mask(17) == 0x00004000 && Mask(18) == 0x00002000 && Mask(19) == 0x00001000 &&
            Mask(20) == 0x00000800 && Mask(21) == 0x00000400 && Mask(22) == 0x00000200 && Mask(23) == 0x00000100
  {
  }

  lemma Masks3()
    ensures Mask(24) == 0x00000080 && Mask(25) == 0x00000040 && Mask(26) == 0x00000020 && Mask(27) == 0x00000010 &&
            Mask(28) == 0x00000008 && Mask(29) == 0x00000004 && Mask(30) == 0x00000002 && Mask(31) == 0x00000001
  {
  }

  lemma Masks()
    ensures Mask(0) == 0x80000000 && Mask(1) == 0x40000000 && Mask(2) == 0x20000000 && Mask(3) == 0x10000000 &&
            Mask(4) == 0x08000000 && Mask(5) == 0x04000000 && Mask(6) == 0x02000000 && Mask(7) == 0x01000000 &&
            Mask(8) == 0x00800000 && Mask(9) == 0x00400000 && Mask(10) == 0x00200000 && Mask(11) == 0x00100000 &&
            Mask(12) == 0x00080000 && Mask(13) == 0x00040000 && Mask(14) == 0x00020000 && Mask(15) == 0x00010000 &&
            Mask(16) == 0x00008000 && Mask(17) == 0x00004000 && Mask(18) == 0x00002000 && Mask(19) == 0x00001000 &&
            Mask(20) == 0x00000800 && Mask(21) == 0x00000400 && Mask(22) == 0x00000200 && Mask(23) == 0x00000100 &&
            Mask(24) == 0x00000080 && Mask(25) == 0x00000040 && Mask(26) == 0x00000020 && Mask(27) == 0x00000010 &&
            Mask(28) == 0x00000008 && Mask(29) == 0x00000004 && Mask(30) == 0x00000002 && Mask(31) == 0x00000001
  {
    hide Mask;
    Masks0();
    Masks1();
    Masks2();
    Masks3();
  }
  predicate ByteBit(b: Byte, i: nat)
    requires i < 8
  {
    match i
    case 0 => b & 0x80 != 0
    case 1 => b & 0x40 != 0
    case 2 => b & 0x20 != 0
    case 3 => b & 0x10 != 0
    case 4 => b & 0x08 != 0
    case 5 => b & 0x04 != 0
    case 6 => b & 0x02 != 0
    case 7 => b & 0x01 != 0
  }

  function Block(b: seq<Byte>): (r: seq<bool>)
    requires |b| == 8
    ensures |r| == 64
  {
    seq(64, i requires 0 <= i < 64 => ByteBit(b[i / 8], i % 8))
  }

  // ----- the standard -----

  /** Where bit `i` of the permuted input comes from: the table IP. */
  function InitialFrom(i: nat): (k: nat)
    requires i < 64
    ensures k < 64
  {
    8 * (7 - i % 8) + if i < 32 then 2 * (i / 8) + 1 else 2 * (i / 8) - 8
  }

  /** Where bit `i` of the output comes from: the inverse of IP. */
  function FinalFrom(i: nat): (k: nat)
    requires i < 64
    ensures k < 64
  {
    (if i % 2 == 0 then 39 + 4 * (i % 8) else 3 + 4 * (i % 8)) - i / 8
  }

  function Initial(b: seq<bool>): (r: seq<bool>)
    requires |b| == 64
    ensures |r| == 64
  {
    seq(64, i requires 0 <= i < 64 => b[InitialFrom(i)])
  }

  function Final(b: seq<bool>): (r: seq<bool>)
    requires |b| == 64
    ensures |r| == 64
  {
    seq(64, i requires 0 <= i < 64 => b[FinalFrom(i)])
  }

  /** Input `m` of box `j` before the key is added: each box takes four bits and their neighbours on both sides. */
  predicate Expanded(r: seq<bool>, j: nat, m: nat)
    requires |r| == 32 && 1 <= j <= 8 && m < 6
  {
    r[(4 * (j - 1) + 31 + m) % 32]
  }

  /** The key bit for input `m` of box `j` in round `n`: each round has one word for the even boxes and one for the
      odd ones. */
  predicate KeyBit(sk: Schedule, n: nat, j: nat, m: nat)
    requires n < 16 && 1 <= j <= 8 && m < 6
  {
    Bit(sk[2 * n + j % 2], 8 * ((j - 1) / 2) + 2 + m)
  }

  /** The number that six bits make. */
  function Six(a: bool, b: bool, c: bool, d: bool, e: bool, f: bool): bv32 {
    (if a then 0x20 else 0) | (if b then 0x10 else 0) | (if c then 0x08 else 0) |
    (if d then 0x04 else 0) | (if e then 0x02 else 0) | (if f then 0x01 else 0)
  }

  predicate Input(sk: Schedule, n: nat, r: seq<bool>, j: nat, m: nat)
    requires n < 16 && |r| == 32 && 1 <= j <= 8 && m < 6
  {
    Expanded(r, j, m) != KeyBit(sk, n, j, m)
  }

  function Index(sk: Schedule, n: nat, r: seq<bool>, j: nat): bv32
    requires n < 16 && |r| == 32 && 1 <= j <= 8
  {
    Six(Input(sk, n, r, j, 0), Input(sk, n, r, j, 1), Input(sk, n, r, j, 2),
        Input(sk, n, r, j, 3), Input(sk, n, r, j, 4), Input(sk, n, r, j, 5))
  }

  /** Bit `i` of a half that the source keeps turned left by one. */
  predicate HalfBit(w: bv32, i: nat)
    requires i < 32
  {
    Bit(w, (i + 31) % 32)
  }

  function Half(w: bv32): (r: seq<bool>)
    ensures |r| == 32
  {
    seq(32, i requires 0 <= i < 32 => HalfBit(w, i))
  }

  /** Bit `i` of what the first `j` boxes give together. */
  predicate BoxesBit(box: Boxes, sk: Schedule, n: nat, r: seq<bool>, i: nat, j: nat)
    requires n < 16 && |r| == 32 && i < 32 && j <= 8
  {
    j > 0 && BoxesBit(box, sk, n, r, i, j - 1) != HalfBit(box(j, Index(sk, n, r, j)), i)
  }

  datatype Sides = Sides(l: seq<bool>, r: seq<bool>) {
    predicate Valid() {
      |l| == 32 && |r| == 32
    }
  }

  /** One round. */
  function Round(box: Boxes, sk: Schedule, n: nat, s: Sides): (s': Sides)
    requires n < 16 && s.Valid()
    ensures s'.Valid()
  {
    Sides(s.r, seq(32, i requires 0 <= i < 32 => s.l[i] != BoxesBit(box, sk, n, s.r, i, 8)))
  }

  function AfterRounds(box: Boxes, sk: Schedule, n: nat, s: Sides): (s': Sides)
    requires n <= 16 && s.Valid()
    ensures s'.Valid()
  {
    if n == 0 then s else Round(box, sk, n - 1, AfterRounds(box, sk, n - 1, s))
  }

  function Enciphered(box: Boxes, sk: Schedule, b: seq<bool>): (r: seq<bool>)
    requires |b| == 64
    ensures |r| == 64
  {
    var p := Initial(b);
    var e := AfterRounds(box, sk, 16, Sides(p[..32], p[32..]));
    Final(e.r + e.l)
  }

  // ----- the initial and the final permutation -----

  lemma IpX0(h: Halves)
    ensures (IP(h).x & 0x00000001 != 0) == (h.y & 0x00000040 != 0)
    ensures (IP(h).x & 0x80000000 != 0) == (h.y & 0x00004000 != 0)
    ensures (IP(h).x & 0x40000000 != 0) == (h.y & 0x00400000 != 0)
    ensures (IP(h).x & 0x20000000 != 0) == (h.y & 0x40000000 != 0)
    ensures (IP(h).x & 0x10000000 != 0) == (h.x & 0x00000040 != 0)
    ensures (IP(h).x & 0x08000000 != 0) == (h.x & 0x00004000 != 0)
    ensures (IP(h).x & 0x04000000 != 0) == (h.x & 0x00400000 != 0)
    ensures (IP(h).x & 0x02000000 != 0) == (h.x & 0x40000000 != 0)
  {
  }

  lemma IpX1(h: Halves)
    ensures (IP(h).x & 0x01000000 != 0) == (h.y & 0x00000010 != 0)
    ensures (IP(h).x & 0x00800000 != 0) == (h.y & 0x00001000 != 0)
    ensures (IP(h).x & 0x00400000 != 0) == (h.y & 0x00100000 != 0)
    ensures (IP(h).x & 0x00200000 != 0) == (h.y & 0x10000000 != 0)
    ensures (IP(h).x & 0x00100000 != 0) == (h.x & 0x00000010 != 0)
    ensures (IP(h).x & 0x00080000 != 0) == (h.x & 0x00001000 != 0)
    ensures (IP(h).x & 0x00040000 != 0) == (h.x & 0x00100000 != 0)
    ensures (IP(h).x & 0x00020000 != 0) == (h.x & 0x10000000 != 0)
  {
  }

  lemma IpX2(h: Halves)
    ensures (IP(h).x & 0x00010000 != 0) == (h.y & 0x00000004 != 0)
    ensures (IP(h).x & 0x00008000 != 0) == (h.y & 0x00000400 != 0)
    ensures (IP(h).x & 0x00004000 != 0) == (h.y & 0x00040000 != 0)
    ensures (IP(h).x & 0x00002000 != 0) == (h.y & 0x04000000 != 0)
    ensures (IP(h).x & 0x00001000 != 0) == (h.x & 0x00000004 != 0)
    ensures (IP(h).x & 0x00000800 != 0) == (h.x & 0x00000400 != 0)
    ensures (IP(h).x & 0x00000400 != 0) == (h.x & 0x00040000 != 0)
    ensures (IP(h).x & 0x00000200 != 0) == (h.x & 0x04000000 != 0)
  {
  }

  lemma IpX3(h: Halves)
    ensures (IP(h).x & 0x00000100 != 0) == (h.y & 0x00000001 != 0)
    ensures (IP(h).x & 0x00000080 != 0) == (h.y & 0x00000100 != 0)
    ensures (IP(h).x & 0x00000040 != 0) == (h.y & 0x00010000 != 0)
    ensures (IP(h).x & 0x00000020 != 0) == (h.y & 0x01000000 != 0)
    ensures (IP(h).x & 0x00000010 != 0) == (h.x & 0x00000001 != 0)
    ensures (IP(h).x & 0x00000008 != 0) == (h.x & 0x00000100 != 0)
    ensures (IP(h).x & 0x00000004 != 0) == (h.x & 0x00010000 != 0)
    ensures (IP(h).x & 0x00000002 != 0) == (h.x & 0x01000000 != 0)
  {
  }

  lemma IpY0(h: Halves)
    ensures (IP(h).y & 0x00000001 != 0) == (h.y & 0x00000080 != 0)
    ensures (IP(h).y & 0x80000000 != 0) == (h.y & 0x00008000 != 0)
    ensures (IP(h).y & 0x40000000 != 0) == (h.y & 0x00800000 != 0)
    ensures (IP(h).y & 0x20000000 != 0) == (h.y & 0x80000000 != 0)
    ensures (IP(h).y & 0x10000000 != 0) == (h.x & 0x00000080 != 0)
    ensures (IP(h).y & 0x08000000 != 0) == (h.x & 0x00008000 != 0)
    ensures (IP(h).y & 0x04000000 != 0) == (h.x & 0x00800000 != 0)
    ensures (IP(h).y & 0x02000000 != 0) == (h.x & 0x80000000 != 0)
  {
  }

  lemma IpY1(h: Halves)
    ensures (IP(h).y & 0x01000000 != 0) == (h.y & 0x00000020 != 0)
    ensures (IP(h).y & 0x00800000 != 0) == (h.y & 0x00002000 != 0)
    ensures (IP(h).y & 0x00400000 != 0) == (h.y & 0x00200000 != 0)
    ensures (IP(h).y & 0x00200000 != 0) == (h.y & 0x20000000 != 0)
    ensures (IP(h).y & 0x00100000 != 0) == (h.x & 0x00000020 != 0)
    ensures (IP(h).y & 0x00080000 != 0) == (h.x & 0x00002000 != 0)
    ensures (IP(h).y & 0x00040000 != 0) == (h.x & 0x00200000 != 0)
    ensures (IP(h).y & 0x00020000 != 0) == (h.x & 0x20000000 != 0)
  {
  }

  lemma IpY2(h: Halves)
    ensures (IP(h).y & 0x00010000 != 0) == (h.y & 0x00000008 != 0)
    ensures (IP(h).y & 0x00008000 != 0) == (h.y & 0x00000800 != 0)
    ensures (IP(h).y & 0x00004000 != 0) == (h.y & 0x00080000 != 0)
    ensures (IP(h).y & 0x00002000 != 0) == (h.y & 0x08000000 != 0)
    ensures (IP(h).y & 0x00001000 != 0) == (h.x & 0x00000008 != 0)
    ensures (IP(h).y & 0x00000800 != 0) == (h.x & 0x00000800 != 0)
    ensures (IP(h).y & 0x00000400 != 0) == (h.x & 0x00080000 != 0)
    ensures (IP(h).y & 0x00000200 != 0) == (h.x & 0x08000000 != 0)
  {
  }

  lemma IpY3(h: Halves)
    ensures (IP(h).y & 0x00000100 != 0) == (h.y & 0x00000002 != 0)
    ensures (IP(h).y & 0x00000080 != 0) == (h.y & 0x00000200 != 0)
    ensures (IP(h).y & 0x00000040 != 0) == (h.y & 0x00020000 != 0)
    ensures (IP(h).y & 0x00000020 != 0) == (h.y & 0x02000000 != 0)
    ensures (IP(h).y & 0x00000010 != 0) == (h.x & 0x00000002 != 0)
    ensures (IP(h).y & 0x00000008 != 0) == (h.x & 0x00000200 != 0)
    ensures (IP(h).y & 0x00000004 != 0) == (h.x & 0x00020000 != 0)
    ensures (IP(h).y & 0x00000002 != 0) == (h.x & 0x02000000 != 0)
  {
  }

  function Word(w: bv32): (r: seq<bool>)
    ensures |r| == 32
  {
    seq(32, i requires 0 <= i < 32 => Bit(w, i))
  }

  function Bits(h: Halves): (r: seq<bool>)
    ensures |r| == 64
  {
    Word(h.x) + Word(h.y)
  }

  predicate XAgrees(h: Halves, i: nat)
    requires i < 32
  {
    HalfBit(IP(h).x, i) == Bits(h)[InitialFrom(i)]
  }

  predicate YAgrees(h: Halves, i: nat)
    requires i < 32
  {
    HalfBit(IP(h).y, i) == Bits(h)[InitialFrom(32 + i)]
  }

  lemma XAgree0(h: Halves)
    ensures XAgrees(h, 0) && XAgrees(h, 1) && XAgrees(h, 2) && XAgrees(h, 3)
    ensures XAgrees(h, 4) && XAgrees(h, 5) && XAgrees(h, 6) && XAgrees(h, 7)
  {
    hide IP, Mask;
    Masks();
    IpX0(h);
  }

  lemma XAgree1(h: Halves)
    ensures XAgrees(h, 8) && XAgrees(h, 9) && XAgrees(h, 10) && XAgrees(h, 11)
    ensures XAgrees(h, 12) && XAgrees(h, 13) && XAgrees(h, 14) && XAgrees(h, 15)
  {
    hide IP, Mask;
    Masks();
    IpX1(h);
  }

  lemma XAgree2(h: Halves)
    ensures XAgrees(h, 16) && XAgrees(h, 17) && XAgrees(h, 18) && XAgrees(h, 19)
    ensures XAgrees(h, 20) && XAgrees(h, 21) && XAgrees(h, 22) && XAgrees(h, 23)
  {
    hide IP, Mask;
    Masks();
    IpX2(h);
  }

  lemma XAgree3(h: Halves)
    ensures XAgrees(h, 24) && XAgrees(h, 25) && XAgrees(h, 26) && XAgrees(h, 27)
    ensures XAgrees(h, 28) && XAgrees(h, 29) && XAgrees(h, 30) && XAgrees(h, 31)
  {
    hide IP, Mask;
    Masks();
    IpX3(h);
  }

  lemma YAgree0(h: Halves)
    ensures YAgrees(h, 0) && YAgrees(h, 1) && YAgrees(h, 2) && YAgrees(h, 3)
    ensures YAgrees(h, 4) && YAgrees(h, 5) && YAgrees(h, 6) && YAgrees(h, 7)
  {
    hide IP, Mask;
    Masks();
    IpY0(h);
  }

  lemma YAgree1(h: Halves)
    ensures YAgrees(h, 8) && YAgrees(h, 9) && YAgrees(h, 10) && YAgrees(h, 11)
    ensures YAgrees(h, 12) && YAgrees(h, 13) && YAgrees(h, 14) && YAgrees(h, 15)
  {
    hide IP, Mask;
    Masks();
    IpY1(h);
  }

  lemma YAgree2(h: Halves)
    ensures YAgrees(h, 16) && YAgrees(h, 17) && YAgrees(h, 18) && YAgrees(h, 19)
    ensures YAgrees(h, 20) && YAgrees(h, 21) && YAgrees(h, 22) && YAgrees(h, 23)
  {
    hide IP, Mask;
    Masks();
    IpY2(h);
  }

  lemma YAgree3(h: Halves)
    ensures YAgrees(h, 24) && YAgrees(h, 25) && YAgrees(h, 26) && YAgrees(h, 27)
    ensures YAgrees(h, 28) && YAgrees(h, 29) && YAgrees(h, 30) && YAgrees(h, 31)
  {
    hide IP, Mask;
    Masks();
    IpY3(h);
  }

  /** Each bit of the permuted block is the bit that the table names. */
  lemma IpX(h: Halves, i: nat)
    requires i < 32
    ensures XAgrees(h, i)
  {
    hide XAgrees;
    XAgree0(h);
    XAgree1(h);
    XAgree2(h);
    XAgree3(h);
  }

  lemma IpY(h: Halves, i: nat)
    requires i < 32
    ensures YAgrees(h, i)
  {
    hide YAgrees;
    YAgree0(h);
    YAgree1(h);
    YAgree2(h);
    YAgree3(h);
  }

  lemma IpBits(h: Halves)
    ensures Half(IP(h).x) + Half(IP(h).y) == Initial(Bits(h))
  {
    hide IP, HalfBit, Bits, InitialFrom;
    forall i | 0 <= i < 64 ensures (Half(IP(h).x) + Half(IP(h).y))[i] == Initial(Bits(h))[i] {
      if i < 32 { IpX(h, i); } else { IpY(h, i - 32); }
    }
  }

  lemma Parts(q: nat, r: nat)
    requires r < 8
    ensures (8 * q + r) / 8 == q && (8 * q + r) % 8 == r && (8 * q + r) % 2 == r % 2
  {
  }

  lemma InitialIs(q: nat, r: nat)
    requires q < 8 && r < 8
    ensures InitialFrom(8 * q + r) == 8 * (7 - r) + if q < 4 then 2 * q + 1 else 2 * q - 8
  {
    Parts(q, r);
  }

  lemma FinalIs(q: nat, r: nat)
    requires q < 8 && r < 8
    ensures FinalFrom(8 * q + r) == 8 * (if r % 2 == 0 then 4 + r / 2 else r / 2) + (7 - q)
  {
    Parts(q, r);
  }

  lemma FromBack(i: nat)
    requires i < 64
    ensures InitialFrom(FinalFrom(i)) == i
  {
    hide InitialFrom, FinalFrom;
    var q, r := i / 8, i % 8;
    assert i == 8 * q + r && q < 8;
    FinalIs(q, r);
    InitialIs(if r % 2 == 0 then 4 + r / 2 else r / 2, 7 - q);
  }

  lemma FpBits(h: Halves)
    ensures Bits(FP(h)) == Final(Half(h.x) + Half(h.y))
  {
    hide IP, FP, HalfBit, Bits, InitialFrom, FinalFrom;
    PermutationsInverse(h);
    IpBits(FP(h));
    var b := Bits(FP(h));
    forall i | 0 <= i < 64 ensures Final(Initial(b))[i] == b[i] { FromBack(i); }
    assert Final(Initial(b)) == b;
  }

  // ----- what one round adds -----

  lemma One0(a: bv32)
    ensures a & 0x80000000 == 0 || a & 0x80000000 == 0x80000000
    ensures a & 0x40000000 == 0 || a & 0x40000000 == 0x40000000
    ensures a & 0x20000000 == 0 || a & 0x20000000 == 0x20000000
    ensures a & 0x10000000 == 0 || a & 0x10000000 == 0x10000000
    ensures a & 0x08000000 == 0 || a & 0x08000000 == 0x08000000
    ensures a & 0x04000000 == 0 || a & 0x04000000 == 0x04000000
    ensures a & 0x02000000 == 0 || a & 0x02000000 == 0x02000000
    ensures a & 0x01000000 == 0 || a & 0x01000000 == 0x01000000
  {
  }

  lemma One1(a: bv32)
    ensures a & 0x00800000 == 0 || a & 0x00800000 == 0x00800000
    ensures a & 0x00400000 == 0 || a & 0x00400000 == 0x00400000
    ensures a & 0x00200000 == 0 || a & 0x00200000 == 0x00200000
    ensures a & 0x00100000 == 0 || a & 0x00100000 == 0x00100000
    ensures a & 0x00080000 == 0 || a & 0x00080000 == 0x00080000
    ensures a & 0x00040000 == 0 || a & 0x00040000 == 0x00040000
    ensures a & 0x00020000 == 0 || a & 0x00020000 == 0x00020000
    ensures a & 0x00010000 == 0 || a & 0x00010000 == 0x00010000
  {
  }

  lemma One2(a: bv32)
    ensures a & 0x00008000 == 0 || a & 0x00008000 == 0x00008000
    ensures a & 0x00004000 == 0 || a & 0x00004000 == 0x00004000
    ensures a & 0x00002000 == 0 || a & 0x00002000 == 0x00002000
    ensures a & 0x00001000 == 0 || a & 0x00001000 == 0x00001000
    ensures a & 0x00000800 == 0 || a & 0x00000800 == 0x00000800
    ensures a & 0x00000400 == 0 || a & 0x00000400 == 0x00000400
    ensures a & 0x00000200 == 0 || a & 0x00000200 == 0x00000200
    ensures a & 0x00000100 == 0 || a & 0x00000100 == 0x00000100
  {
  }

  lemma One3(a: bv32)
    ensures a & 0x00000080 == 0 || a & 0x00000080 == 0x00000080
    ensures a & 0x00000040 == 0 || a & 0x00000040 == 0x00000040
    ensures a & 0x00000020 == 0 || a & 0x00000020 == 0x00000020
    ensures a & 0x00000010 == 0 || a & 0x00000010 == 0x00000010
    ensures a & 0x00000008 == 0 || a & 0x00000008 == 0x00000008
    ensures a & 0x00000004 == 0 || a & 0x00000004 == 0x00000004
    ensures a & 0x00000002 == 0 || a & 0x00000002 == 0x00000002
    ensures a & 0x00000001 == 0 || a & 0x00000001 == 0x00000001
  {
  }

  predicate AllOrNone(a: bv32, mask: bv32) {
    a & mask == 0 || a & mask == mask
  }

  lemma OneOf(a: bv32, i: nat)
    requires i < 32
    ensures AllOrNone(a, Mask(i))
  {
    One0(a);
    One1(a);
    One2(a);
    One3(a);
  }

  lemma NotNone(i: nat)
    requires i < 32
    ensures Mask(i) != 0
  {
  }

  lemma XorAnd(a: bv32, b: bv32, mask: bv32)
    ensures Xor(a, b) & mask == Xor(a & mask, b & mask)
  {
  }

  lemma XorSelf(p: bv32)
    ensures Xor(p, p) == 0 && Xor(p, 0) == p && Xor(0, p) == p
  {
  }

  lemma XorMasked(a: bv32, b: bv32, mask: bv32)
    requires mask != 0 && AllOrNone(a, mask) && AllOrNone(b, mask)
    ensures Has(Xor(a, b), mask) == (Has(a, mask) != Has(b, mask))
  {
    XorAnd(a, b, mask);
    XorSelf(mask);
    XorSelf(0);
    hide Xor;
  }

  lemma XorBit(a: bv32, b: bv32, i: nat)
    requires i < 32
    ensures Bit(Xor(a, b), i) == (Bit(a, i) != Bit(b, i))
  {
    hide Mask, Xor, AllOrNone, Has;
    OneOf(a, i);
    OneOf(b, i);
    NotNone(i);
    XorMasked(a, b, Mask(i));
  }

  lemma Box1(k: bv32, w: bv32)
    ensures Low6(Xor(k, Turned(w)), 24) ==
            Six((w & 0x00000002 != 0) != (k & 0x20000000 != 0), (w & 0x00000001 != 0) != (k & 0x10000000 != 0),
                (w & 0x80000000 != 0) != (k & 0x08000000 != 0), (w & 0x40000000 != 0) != (k & 0x04000000 != 0),
                (w & 0x20000000 != 0) != (k & 0x02000000 != 0), (w & 0x10000000 != 0) != (k & 0x01000000 != 0))
  {
  }

  lemma Box2(k: bv32, w: bv32)
    ensures Low6(Xor(k, w), 24) ==
            Six((w & 0x20000000 != 0) != (k & 0x20000000 != 0), (w & 0x10000000 != 0) != (k & 0x10000000 != 0),
                (w & 0x08000000 != 0) != (k & 0x08000000 != 0), (w & 0x04000000 != 0) != (k & 0x04000000 != 0),
                (w & 0x02000000 != 0) != (k & 0x02000000 != 0), (w & 0x01000000 != 0) != (k & 0x01000000 != 0))
  {
  }

  lemma Box3(k: bv32, w: bv32)
    ensures Low6(Xor(k, Turned(w)), 16) ==
            Six((w & 0x02000000 != 0) != (k & 0x00200000 != 0), (w & 0x01000000 != 0) != (k & 0x00100000 != 0),
                (w & 0x00800000 != 0) != (k & 0x00080000 != 0), (w & 0x00400000 != 0) != (k & 0x00040000 != 0),
                (w & 0x00200000 != 0) != (k & 0x00020000 != 0), (w & 0x00100000 != 0) != (k & 0x00010000 != 0))
  {
  }

  lemma Box4(k: bv32, w: bv32)
    ensures Low6(Xor(k, w), 16) ==
            Six((w & 0x00200000 != 0) != (k & 0x00200000 != 0), (w & 0x00100000 != 0) != (k & 0x00100000 != 0),
                (w & 0x00080000 != 0) != (k & 0x00080000 != 0), (w & 0x00040000 != 0) != (k & 0x00040000 != 0),
                (w & 0x00020000 != 0) != (k & 0x00020000 != 0), (w & 0x00010000 != 0) != (k & 0x00010000 != 0))
  {
  }

  lemma Box5(k: bv32, w: bv32)
    ensures Low6(Xor(k, Turned(w)), 8) ==
            Six((w & 0x00020000 != 0) != (k & 0x00002000 != 0), (w & 0x00010000 != 0) != (k & 0x00001000 != 0),
                (w & 0x00008000 != 0) != (k & 0x00000800 != 0), (w & 0x00004000 != 0) != (k & 0x00000400 != 0),
                (w & 0x00002000 != 0) != (k & 0x00000200 != 0), (w & 0x00001000 != 0) != (k & 0x00000100 != 0))
  {
  }

  lemma Box6(k: bv32, w: bv32)
    ensures Low6(Xor(k, w), 8) ==
            Six((w & 0x00002000 != 0) != (k & 0x00002000 != 0), (w & 0x00001000 != 0) != (k & 0x00001000 != 0),
                (w & 0x00000800 != 0) != (k & 0x00000800 != 0), (w & 0x00000400 != 0) != (k & 0x00000400 != 0),
                (w & 0x00000200 != 0) != (k & 0x00000200 != 0), (w & 0x00000100 != 0) != (k & 0x00000100 != 0))
  {
  }

  lemma Box7(k: bv32, w: bv32)
    ensures Low6(Xor(k, Turned(w)), 0) ==
            Six((w & 0x00000200 != 0) != (k & 0x00000020 != 0), (w & 0x00000100 != 0) != (k & 0x00000010 != 0),
                (w & 0x00000080 != 0) != (k & 0x00000008 != 0), (w & 0x00000040 != 0) != (k & 0x00000004 != 0),
                (w & 0x00000020 != 0) != (k & 0x00000002 != 0), (w & 0x00000010 != 0) != (k & 0x00000001 != 0))
  {
  }

  lemma Box8(k: bv32, w: bv32)
    ensures Low6(Xor(k, w), 0) ==
            Six((w & 0x00000020 != 0) != (k & 0x00000020 != 0), (w & 0x00000010 != 0) != (k & 0x00000010 != 0),
                (w & 0x00000008 != 0) != (k & 0x00000008 != 0), (w & 0x00000004 != 0) != (k & 0x00000004 != 0),
                (w & 0x00000002 != 0) != (k & 0x00000002 != 0), (w & 0x00000001 != 0) != (k & 0x00000001 != 0))
  {
  }

  lemma Index1(sk: Schedule, n: nat, w: bv32)
    requires n < 16
    ensures Index(sk, n, Half(w), 1) == Low6(Xor(sk[2 * n + 1], Turned(w)), 24)
  {
    hide Xor, Turned, Low6, Six, Mask;
    Masks();
    var k := sk[2 * n + 1];
    Box1(k, w);
  }

  lemma Index2(sk: Schedule, n: nat, w: bv32)
    requires n < 16
    ensures Index(sk, n, Half(w), 2) == Low6(Xor(sk[2 * n], w), 24)
  {
    hide Xor, Turned, Low6, Six, Mask;
    Masks();
    var k := sk[2 * n];
    Box2(k, w);
  }

  lemma Index3(sk: Schedule, n: nat, w: bv32)
    requires n < 16
    ensures Index(sk, n, Half(w), 3) == Low6(Xor(sk[2 * n + 1], Turned(w)), 16)
  {
    hide Xor, Turned, Low6, Six, Mask;
    Masks();
    var k := sk[2 * n + 1];
    Box3(k, w);
  }

  lemma Index4(sk: Schedule, n: nat, w: bv32)
    requires n < 16
    ensures Index(sk, n, Half(w), 4) == Low6(Xor(sk[2 * n], w), 16)
  {
    hide Xor, Turned, Low6, Six, Mask;
    Masks();
    var k := sk[2 * n];
    Box4(k, w);
  }

  lemma Index5(sk: Schedule, n: nat, w: bv32)
    requires n < 16
    ensures Index(sk, n, Half(w), 5) == Low6(Xor(sk[2 * n + 1], Turned(w)), 8)
  {
    hide Xor, Turned, Low6, Six, Mask;
    Masks();
    var k := sk[2 * n + 1];
    Box5(k, w);
  }

  lemma Index6(sk: Schedule, n: nat, w: bv32)
    requires n < 16
    ensures Index(sk, n, Half(w), 6) == Low6(Xor(sk[2 * n], w), 8)
  {
    hide Xor, Turned, Low6, Six, Mask;
    Masks();
    var k := sk[2 * n];
    Box6(k, w);
  }

  lemma Index7(sk: Schedule, n: nat, w: bv32)
    requires n < 16
    ensures Index(sk, n, Half(w), 7) == Low6(Xor(sk[2 * n + 1], Turned(w)), 0)
  {
    hide Xor, Turned, Low6, Six, Mask;
    Masks();
    var k := sk[2 * n + 1];
    Box7(k, w);
  }

  lemma Index8(sk: Schedule, n: nat, w: bv32)
    requires n < 16
    ensures Index(sk, n, Half(w), 8) == Low6(Xor(sk[2 * n], w), 0)
  {
    hide Xor, Turned, Low6, Six, Mask;
    Masks();
    var k := sk[2 * n];
    Box8(k, w);
  }

  function Eight(b1: bv32, b2: bv32, b3: bv32, b4: bv32, b5: bv32, b6: bv32, b7: bv32, b8: bv32): bv32 {
    Xor(Xor(Xor(Xor(Xor(Xor(Xor(b8, b6), b4), b2), b7), b5), b3), b1)
  }

  lemma FIs(box: Boxes, w: bv32, k0: bv32, k1: bv32)
    ensures var t, u := Xor(k0, w), Xor(k1, Turned(w));
            F(box, w, k0, k1) ==
            Eight(box(1, Low6(u, 24)), box(2, Low6(t, 24)), box(3, Low6(u, 16)), box(4, Low6(t, 16)),
                  box(5, Low6(u, 8)), box(6, Low6(t, 8)), box(7, Low6(u, 0)), box(8, Low6(t, 0)))
  {
    hide Xor, Low6, Turned;
  }

  lemma XorHalf(a: bv32, b: bv32, i: nat)
    requires i < 32
    ensures HalfBit(Xor(a, b), i) == (HalfBit(a, i) != HalfBit(b, i))
  {
    hide Bit, Xor;
    XorBit(a, b, (i + 31) % 32);
  }

  /** Bit for bit, what the source adds to a half is what the boxes give together. */
  lemma FBit(box: Boxes, sk: Schedule, n: nat, w: bv32, i: nat)
    requires n < 16 && i < 32
    ensures HalfBit(F(box, w, sk[2 * n], sk[2 * n + 1]), i) == BoxesBit(box, sk, n, Half(w), i, 8)
  {
    hide F, Xor, Eight, HalfBit, Half, Low6, Turned, Index, BoxesBit;
    var r := Half(w);
    FIs(box, w, sk[2 * n], sk[2 * n + 1]);
    Index1(sk, n, w);
    Index2(sk, n, w);
    Index3(sk, n, w);
    Index4(sk, n, w);
    Index5(sk, n, w);
    Index6(sk, n, w);
    Index7(sk, n, w);
    Index8(sk, n, w);
    SumOfEight(box(1, Index(sk, n, r, 1)), box(2, Index(sk, n, r, 2)), box(3, Index(sk, n, r, 3)),
               box(4, Index(sk, n, r, 4)), box(5, Index(sk, n, r, 5)), box(6, Index(sk, n, r, 6)),
               box(7, Index(sk, n, r, 7)), box(8, Index(sk, n, r, 8)), i);
    EightBoxes(box, sk, n, r, i);
  }

  lemma BoxNext(box: Boxes, sk: Schedule, n: nat, r: seq<bool>, i: nat, j: nat)
    requires n < 16 && |r| == 32 && i < 32 && 1 <= j <= 8
    ensures BoxesBit(box, sk, n, r, i, j) ==
            (BoxesBit(box, sk, n, r, i, j - 1) != HalfBit(box(j, Index(sk, n, r, j)), i))
    ensures !BoxesBit(box, sk, n, r, i, 0)
  {
    hide HalfBit, Index;
  }

  lemma EightBoxes(box: Boxes, sk: Schedule, n: nat, r: seq<bool>, i: nat)
    requires n < 16 && |r| == 32 && i < 32
    ensures BoxesBit(box, sk, n, r, i, 8) ==
            (((((((HalfBit(box(1, Index(sk, n, r, 1)), i) != HalfBit(box(2, Index(sk, n, r, 2)), i)) !=
                  HalfBit(box(3, Index(sk, n, r, 3)), i)) != HalfBit(box(4, Index(sk, n, r, 4)), i)) !=
                HalfBit(box(5, Index(sk, n, r, 5)), i)) != HalfBit(box(6, Index(sk, n, r, 6)), i)) !=
              HalfBit(box(7, Index(sk, n, r, 7)), i)) != HalfBit(box(8, Index(sk, n, r, 8)), i))
  {
    hide HalfBit, Index, BoxesBit;
    BoxNext(box, sk, n, r, i, 1);
    BoxNext(box, sk, n, r, i, 2);
    BoxNext(box, sk, n, r, i, 3);
    BoxNext(box, sk, n, r, i, 4);
    BoxNext(box, sk, n, r, i, 5);
    BoxNext(box, sk, n, r, i, 6);
    BoxNext(box, sk, n, r, i, 7);
    BoxNext(box, sk, n, r, i, 8);
  }

  lemma SumOfEight(b1: bv32, b2: bv32, b3: bv32, b4: bv32, b5: bv32, b6: bv32, b7: bv32, b8: bv32, i: nat)
    requires i < 32
    ensures HalfBit(Eight(b1, b2, b3, b4, b5, b6, b7, b8), i) ==
            (((((((HalfBit(b1, i) != HalfBit(b2, i)) != HalfBit(b3, i)) != HalfBit(b4, i)) != HalfBit(b5, i)) !=
               HalfBit(b6, i)) != HalfBit(b7, i)) != HalfBit(b8, i))
  {
    hide Xor, HalfBit;
    var x := Xor(Xor(Xor(b8, b6), b4), b2);
    FourHalves(b8, b6, b4, b2, i);
    XorHalf(x, b7, i);
    XorHalf(Xor(x, b7), b5, i);
    XorHalf(Xor(Xor(x, b7), b5), b3, i);
    XorHalf(Xor(Xor(Xor(x, b7), b5), b3), b1, i);
    hide Eight;
    Parity(HalfBit(b1, i), HalfBit(b2, i), HalfBit(b3, i), HalfBit(b4, i),
           HalfBit(b5, i), HalfBit(b6, i), HalfBit(b7, i), HalfBit(b8, i));
  }

  lemma FourHalves(a: bv32, b: bv32, c: bv32, d: bv32, i: nat)
    requires i < 32
    ensures HalfBit(Xor(Xor(Xor(a, b), c), d), i) ==
            (((HalfBit(a, i) != HalfBit(b, i)) != HalfBit(c, i)) != HalfBit(d, i))
  {
    hide Xor, HalfBit;
    XorHalf(a, b, i);
    XorHalf(Xor(a, b), c, i);
    XorHalf(Xor(Xor(a, b), c), d, i);
  }

  lemma Parity(a: bool, b: bool, c: bool, d: bool, e: bool, f: bool, g: bool, h: bool)
    ensures (((((((h != f) != d) != b) != g) != e) != c) != a) ==
            (((((((a != b) != c) != d) != e) != f) != g) != h)
  {
  }

  // ----- rounds, blocks and texts -----

  /** `DES_ROUND` is one round of the standard; the halves are not exchanged, but take turns. */
  lemma OneRound(box: Boxes, sk: Schedule, n: nat, a: bv32, b: bv32)
    requires n < 16
    ensures Round(box, sk, n, Sides(Half(a), Half(b))) ==
            Sides(Half(b), Half(Xor(a, F(box, b, sk[2 * n], sk[2 * n + 1]))))
  {
    hide F, Xor, HalfBit, BoxesBit;
    var f := F(box, b, sk[2 * n], sk[2 * n + 1]);
    var r := Round(box, sk, n, Sides(Half(a), Half(b))).r;
    forall i | 0 <= i < 32 ensures r[i] == Half(Xor(a, f))[i] {
      XorHalf(a, f, i);
      FBit(box, sk, n, b, i);
    }
  }

  lemma {:induction false} RoundsBits(box: Boxes, sk: Schedule, n: nat, h: Halves)
    requires n <= 8
    ensures var r := Rounds(box, sk, n, h);
            AfterRounds(box, sk, 2 * n, Sides(Half(h.x), Half(h.y))) == Sides(Half(r.x), Half(r.y))
  {
    hide F, Xor, Round, Half;
    if n > 0 {
      var s := Sides(Half(h.x), Half(h.y));
      RoundsBits(box, sk, n - 1, h);
      var m, r := Rounds(box, sk, n - 1, h), Rounds(box, sk, n, h);
      OneRound(box, sk, 2 * n - 2, m.x, m.y);
      OneRound(box, sk, 2 * n - 1, m.y, r.x);
      var s2 := AfterRounds(box, sk, 2 * n - 2, s);
      assert AfterRounds(box, sk, 2 * n - 1, s) == Round(box, sk, 2 * n - 2, s2);
    }
  }

  lemma CryptBits(box: Boxes, sk: Schedule, h: Halves)
    ensures Bits(Crypt(box, sk, h)) == Enciphered(box, sk, Bits(h))
  {
    hide IP, FP, Rounds, AfterRounds, Half, Bits, Initial, Final;
    var p := IP(h);
    IpBits(h);
    RoundsBits(box, sk, 8, p);
    FpBits(Rounds(box, sk, 8, p).Swap());
    assert Initial(Bits(h))[..32] == Half(p.x) && Initial(Bits(h))[32..] == Half(p.y);
  }

  function Joined(a: Byte, b: Byte, c: Byte, d: Byte): bv32 {
    (a as bv32 << 24) | (b as bv32 << 16) | (c as bv32 << 8) | d as bv32
  }

  lemma Byte0(a: Byte, b: Byte, c: Byte, d: Byte)
    ensures (Joined(a, b, c, d) & 0x80000000 != 0) == (a & 0x80 != 0)
    ensures (Joined(a, b, c, d) & 0x40000000 != 0) == (a & 0x40 != 0)
    ensures (Joined(a, b, c, d) & 0x20000000 != 0) == (a & 0x20 != 0)
    ensures (Joined(a, b, c, d) & 0x10000000 != 0) == (a & 0x10 != 0)
    ensures (Joined(a, b, c, d) & 0x08000000 != 0) == (a & 0x08 != 0)
    ensures (Joined(a, b, c, d) & 0x04000000 != 0) == (a & 0x04 != 0)
    ensures (Joined(a, b, c, d) & 0x02000000 != 0) == (a & 0x02 != 0)
    ensures (Joined(a, b, c, d) & 0x01000000 != 0) == (a & 0x01 != 0)
  {
  }

  lemma Byte1(a: Byte, b: Byte, c: Byte, d: Byte)
    ensures (Joined(a, b, c, d) & 0x00800000 != 0) == (b & 0x80 != 0)
    ensures (Joined(a, b, c, d) & 0x00400000 != 0) == (b & 0x40 != 0)
    ensures (Joined(a, b, c, d) & 0x00200000 != 0) == (b & 0x20 != 0)
    ensures (Joined(a, b, c, d) & 0x00100000 != 0) == (b & 0x10 != 0)
    ensures (Joined(a, b, c, d) & 0x00080000 != 0) == (b & 0x08 != 0)
    ensures (Joined(a, b, c, d) & 0x00040000 != 0) == (b & 0x04 != 0)
    ensures (Joined(a, b, c, d) & 0x00020000 != 0) == (b & 0x02 != 0)
    ensures (Joined(a, b, c, d) & 0x00010000 != 0) == (b & 0x01 != 0)
  {
  }

  lemma Byte2(a: Byte, b: Byte, c: Byte, d: Byte)
    ensures (Joined(a, b, c, d) & 0x00008000 != 0) == (c & 0x80 != 0)
    ensures (Joined(a, b, c, d) & 0x00004000 != 0) == (c & 0x40 != 0)
    ensures (Joined(a, b, c, d) & 0x00002000 != 0) == (c & 0x20 != 0)
    ensures (Joined(a, b, c, d) & 0x00001000 != 0) == (c & 0x10 != 0)
    ensures (Joined(a, b, c, d) & 0x00000800 != 0) == (c & 0x08 != 0)
    ensures (Joined(a, b, c, d) & 0x00000400 != 0) == (c & 0x04 != 0)
    ensures (Joined(a, b, c, d) & 0x00000200 != 0) == (c & 0x02 != 0)
    ensures (Joined(a, b, c, d) & 0x00000100 != 0) == (c & 0x01 != 0)
  {
  }

  lemma Byte3(a: Byte, b: Byte, c: Byte, d: Byte)
    ensures (Joined(a, b, c, d) & 0x00000080 != 0) == (d & 0x80 != 0)
    ensures (Joined(a, b, c, d) & 0x00000040 != 0) == (d & 0x40 != 0)
    ensures (Joined(a, b, c, d) & 0x00000020 != 0) == (d & 0x20 != 0)
    ensures (Joined(a, b, c, d) & 0x00000010 != 0) == (d & 0x10 != 0)
    ensures (Joined(a, b, c, d) & 0x00000008 != 0) == (d & 0x08 != 0)
    ensures (Joined(a, b, c, d) & 0x00000004 != 0) == (d & 0x04 != 0)
    ensures (Joined(a, b, c, d) & 0x00000002 != 0) == (d & 0x02 != 0)
    ensures (Joined(a, b, c, d) & 0x00000001 != 0) == (d & 0x01 != 0)
  {
  }

  predicate JoinedAt(w: bv32, b: seq<Byte>, i: nat)
    requires |b| == 4 && i < 32
  {
    Bit(w, i) == ByteBit(b[i / 8], i % 8)
  }

  lemma JoinedIs(b: seq<Byte>)
    requires |b| == 4
    ensures Get32(b) == Joined(b[0], b[1], b[2], b[3])
  {
  }

  lemma Get0(b: seq<Byte>)
    requires |b| == 4
    ensures JoinedAt(Get32(b), b, 0) && JoinedAt(Get32(b), b, 1)
    ensures JoinedAt(Get32(b), b, 2) && JoinedAt(Get32(b), b, 3)
    ensures JoinedAt(Get32(b), b, 4) && JoinedAt(Get32(b), b, 5)
    ensures JoinedAt(Get32(b), b, 6) && JoinedAt(Get32(b), b, 7)
  {
    JoinedIs(b);
    Byte0(b[0], b[1], b[2], b[3]);
    hide Joined, Get32, Mask;
    Masks();
  }

  lemma Get1(b: seq<Byte>)
    requires |b| == 4
    ensures JoinedAt(Get32(b), b, 8) && JoinedAt(Get32(b), b, 9)
    ensures JoinedAt(Get32(b), b, 10) && JoinedAt(Get32(b), b, 11)
    ensures JoinedAt(Get32(b), b, 12) && JoinedAt(Get32(b), b, 13)
    ensures JoinedAt(Get32(b), b, 14) && JoinedAt(Get32(b), b, 15)
  {
    JoinedIs(b);
    Byte1(b[0], b[1], b[2], b[3]);
    hide Joined, Get32, Mask;
    Masks();
  }

  lemma Get2(b: seq<Byte>)
    requires |b| == 4
    ensures JoinedAt(Get32(b), b, 16) && JoinedAt(Get32(b), b, 17)
    ensures JoinedAt(Get32(b), b, 18) && JoinedAt(Get32(b), b, 19)
    ensures JoinedAt(Get32(b), b, 20) && JoinedAt(Get32(b), b, 21)
    ensures JoinedAt(Get32(b), b, 22) && JoinedAt(Get32(b), b, 23)
  {
    JoinedIs(b);
    Byte2(b[0], b[1], b[2], b[3]);
    hide Joined, Get32, Mask;
    Masks();
  }

  lemma Get3(b: seq<Byte>)
    requires |b| == 4
    ensures JoinedAt(Get32(b), b, 24) && JoinedAt(Get32(b), b, 25)
    ensures JoinedAt(Get32(b), b, 26) && JoinedAt(Get32(b), b, 27)
    ensures JoinedAt(Get32(b), b, 28) && JoinedAt(Get32(b), b, 29)
    ensures JoinedAt(Get32(b), b, 30) && JoinedAt(Get32(b), b, 31)
  {
    JoinedIs(b);
    Byte3(b[0], b[1], b[2], b[3]);
    hide Joined, Get32, Mask;
    Masks();
  }

  /** A word is read with its first byte in front. */
  lemma GetBits(b: seq<Byte>, i: nat)
    requires |b| == 4 && i < 32
    ensures JoinedAt(Get32(b), b, i)
  {
    hide JoinedAt, Get32;
    Get0(b);
    Get1(b);
    Get2(b);
    Get3(b);
  }

  lemma BlockIs(b: seq<Byte>)
    requires |b| == 8
    ensures Block(b) == Bits(Halves(Get32(b[..4]), Get32(b[4..])))
  {
    hide Get32, Bit, ByteBit, Mask;
    var x, y := Get32(b[..4]), Get32(b[4..]);
    forall i | 0 <= i < 64 ensures Block(b)[i] == (Word(x) + Word(y))[i] {
      if i < 32 {
        GetBits(b[..4], i);
      } else {
        GetBits(b[4..], i - 32);
        assert (i - 32) / 8 == i / 8 - 4 && (i - 32) % 8 == i % 8;
      }
    }
  }

  /** `des_crypt` enciphers a block as the standard says. */
  lemma CryptBlockBits(box: Boxes, sk: Schedule, b: seq<Byte>)
    requires |b| == 8
    ensures Block(CryptBlock(box, sk, b)) == Enciphered(box, sk, Block(b))
  {
    hide Get32, Put32, Crypt, Enciphered, Bits, Block;
    var h := Halves(Get32(b[..4]), Get32(b[4..]));
    var r := Crypt(box, sk, h);
    var c := Put32(r.x) + Put32(r.y);
    assert c == CryptBlock(box, sk, b);
    assert c[..4] == Put32(r.x) && c[4..] == Put32(r.y);
    GetPut(r.x);
    GetPut(r.y);
    BlockIs(b);
    BlockIs(c);
    CryptBits(box, sk, h);
  }

  lemma Earlier(n: nat, k: nat)
    requires n % 8 == 0 && 8 * k <= n && 8 * k != n
    ensures 8 * k + 8 <= n
  {
  }

  lemma TextParts(box: Boxes, sk: Schedule, s: seq<Byte>, n: nat)
    requires |s| % 8 == 0 && |s| == n + 8
    ensures var c := CryptText(box, sk, s);
            c[..n] == CryptText(box, sk, s[..n]) && c[n..] == CryptBlock(box, sk, s[n..])
  {
    hide CryptBlock;
  }

  lemma SliceOfFront<T>(s: seq<T>, n: nat, i: nat, j: nat)
    requires i <= j <= n <= |s|
    ensures s[..n][i..j] == s[i..j]
  {
  }

  /** And so does `CryptText`, which `Encode` computes, with every block of a text. */
  lemma {:induction false} TextBits(box: Boxes, sk: Schedule, s: seq<Byte>, k: nat)
    requires |s| % 8 == 0 && 8 * k + 8 <= |s|
    ensures Block(CryptText(box, sk, s)[8 * k..8 * k + 8]) == Enciphered(box, sk, Block(s[8 * k..8 * k + 8]))
    decreases |s|
  {
    hide CryptText, CryptBlock, Enciphered, Block;
    var n, i := |s| - 8, 8 * k;
    var c := CryptText(box, sk, s);
    TextParts(box, sk, s, n);
    if i == n {
      CryptBlockBits(box, sk, s[n..]);
      assert c[i..i + 8] == c[n..] && s[i..i + 8] == s[n..];
    } else {
      Earlier(n, k);
      TextBits(box, sk, s[..n], k);
      SliceOfFront(c, n, i, i + 8);
      SliceOfFront(s, n, i, i + 8);
    }
  }

  /** The bits of a block tell the block. */
  lemma BitsTell(b: seq<Byte>, c: seq<Byte>)
    requires |b| == |c| == 8 && Block(b) == Block(c)
    ensures b == c
  {
    forall i | 0 <= i < 8 ensures b[i] == c[i] {
      SameByte(b, c, i);
    }
  }

  lemma SameByte(b: seq<Byte>, c: seq<Byte>, i: nat)
    requires |b| == |c| == 8 && Block(b) == Block(c) && i < 8
    ensures b[i] == c[i]
  {
    forall m | 0 <= m < 8 ensures ByteBit(b[i], m) == ByteBit(c[i], m) {
      assert Block(b)[8 * i + m] == Block(c)[8 * i + m];
      Parts(i, m);
      hide ByteBit;
    }
    hide Block;
    ByteTold(b[i], c[i]);
  }

  lemma ByteTold(b: Byte, c: Byte)
    requires forall m :: 0 <= m < 8 ==> ByteBit(b, m) == ByteBit(c, m)
    ensures b == c
  {
    assert ByteBit(b, 0) == ByteBit(c, 0) && ByteBit(b, 1) == ByteBit(c, 1) && ByteBit(b, 2) == ByteBit(c, 2);
    assert ByteBit(b, 3) == ByteBit(c, 3) && ByteBit(b, 4) == ByteBit(c, 4) && ByteBit(b, 5) == ByteBit(c, 5);
    assert ByteBit(b, 6) == ByteBit(c, 6) && ByteBit(b, 7) == ByteBit(c, 7);
  }
}
