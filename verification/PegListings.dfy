/** The code of typical patterns, instruction by instruction: which tests are made, which instructions they spare, and
    when a choice, a repetition or a predicate goes without a backtrack entry. */
module PegListings {
  import opened Wrappers
  import opened PegTree
  import opened PegAnalysis
  import opened PegMachine
  import opened PegCode

  lemma SetKinds(a: Byte)
    ensures CharsetType({a}) == OneChar(a) && CharsetType({}) == EmptySet && CharsetType(FULL) == FullSet
  {
    assert 0 in FULL && 1 in FULL;
    if FULL == {a} { assert false; }
    assert a in {a};
  }

  /** Sets are compiled by what they contain. */
  lemma Sets(rules: seq<Tree>, a: Byte, cs: Charset, fl: Charset, da: nat)
    requires CharsetType(cs) == OtherSet
    ensures Gen(rules, TSet({a}), false, NoTest, fl, da) == [IChar(a)]
    ensures Gen(rules, TSet({}), false, NoTest, fl, da) == [IFail]
    ensures Gen(rules, TSet(FULL), false, NoTest, fl, da) == [IAny]
    ensures Gen(rules, TSet(cs), false, NoTest, fl, da) == [ISet(cs)]
    ensures Gen(rules, TRep(TSet(cs)), false, NoTest, fl, da) == [ISpan(cs)]
  {
    SetKinds(a);
  }

  lemma NotIsTest(rules: seq<Tree>, p: Tree, cs: Charset, fl: Charset, da: nat)
    requires HeadFail(rules, p, da) && GetFirst(rules, p, FULL, da) == First(cs, false)
    ensures Gen(rules, TNot(p), false, NoTest, fl, da) == [TestInstr(cs, 2), IFail]
  {
  }

  /** A predicate that looks at one character is one test: !'a', !. and ![cs], */
  lemma NotByTest(rules: seq<Tree>, a: Byte, cs: Charset, fl: Charset, da: nat)
    requires CharsetType(cs) == OtherSet
    ensures Gen(rules, TNot(TChar(a)), false, NoTest, fl, da) == [ITestChar(a, 2), IFail]
    ensures Gen(rules, TNot(TAny), false, NoTest, fl, da) == [ITestAny(2), IFail]
    ensures Gen(rules, TNot(TSet(cs)), false, NoTest, fl, da) == [ITestSet(cs, 2), IFail]
    ensures Gen(rules, TNot(TFalse), false, NoTest, fl, da) == [IJmp(2), IFail]
  {
    SetKinds(a);
    NotIsTest(rules, TChar(a), {a}, fl, da);
    NotIsTest(rules, TAny, FULL, fl, da);
    NotIsTest(rules, TSet(cs), cs, fl, da);
    NotIsTest(rules, TFalse, {}, fl, da);
  }

  /** and !p for a p that fails by its first character alone. */
  lemma NotPart(rules: seq<Tree>, a: Byte, cs: Charset, ds: Charset, r: nat, fl: Charset, da: nat)
    requires CharsetType(cs + ds) == OtherSet && r < |rules| && rules[r] == TChar(a) && da > 0
    ensures Gen(rules, TNot(TAnd(TChar(a))), false, NoTest, fl, da) == [ITestChar(a, 2), IFail]
    ensures Gen(rules, TNot(TChoice(TSet(cs), TSet(ds))), false, NoTest, fl, da) == [ITestSet(cs + ds, 2), IFail]
    ensures Gen(rules, TNot(TCall(r)), false, NoTest, fl, da) == [ITestChar(a, 2), IFail]
    ensures Gen(rules, TNot(TGrammar([TChar(a)])), false, NoTest, fl, da) == [ITestChar(a, 2), IFail]
  {
    SetKinds(a);
    assert {a} * FULL == {a};
    assert HeadFail(rules, TChar(a), da) && GetFirst(rules, TChar(a), FULL, da) == First({a}, false);
    NotIsTest(rules, TAnd(TChar(a)), {a}, fl, da);
    assert HeadFail(rules, TSet(cs), da) && GetFirst(rules, TSet(cs), FULL, da) == First(cs, false);
    assert HeadFail(rules, TSet(ds), da) && GetFirst(rules, TSet(ds), FULL, da) == First(ds, false);
    NotIsTest(rules, TChoice(TSet(cs), TSet(ds)), cs + ds, fl, da);
    assert HeadFail(rules, TChar(a), da - 1) && GetFirst(rules, TChar(a), FULL, da - 1) == First({a}, false);
    NotIsTest(rules, TCall(r), {a}, fl, da);
    var rs := [TChar(a)];
    assert HeadFail(rs, rs[0], da) && GetFirst(rs, rs[0], FULL, da) == First({a}, false);
    NotIsTest(rules, TGrammar(rs), {a}, fl, da);
  }

  /** One that looks further: !('a' 'b'), &('a' 'b') and &[cs]*. */
  lemma Predicates(rules: seq<Tree>, a: Byte, b: Byte, cs: Charset, fl: Charset, da: nat)
    ensures Gen(rules, TNot(TSeq(TChar(a), TChar(b))), false, NoTest, fl, da) ==
            [ITestChar(a, 5), IChoice(4), IChar(a), IChar(b), IFailTwice]
    ensures Gen(rules, TAnd(TSeq(TChar(a), TChar(b))), false, NoTest, fl, da) == [IChar(a), IChar(b), IBehind(2)]
    ensures Gen(rules, TAnd(TRep(TSet(cs))), false, NoTest, fl, da) ==
            [IChoice(3), ISpan(cs), IBackCommit(2), IFail]
  {
    SetKinds(a);
    Pair(rules, a, b, false, NoTest, FULL, da);
    var p := TRep(TSet(cs));
    assert Gen(rules, p, false, NoTest, FULL, da) == [ISpan(cs)];
  }

  /** A predicate of a fixed length steps back if that fits into a byte, and saves its position otherwise. */
  lemma AndLengths(rules: seq<Tree>, p: Tree, n: nat, fl: Charset, da: nat)
    requires FixedLen(rules, p, da) == Some(n) && n > 0
    ensures var g := Gen(rules, p, false, NoTest, FULL, da);
            Gen(rules, TAnd(p), false, NoTest, fl, da) ==
            if n <= 255 then g + [IBehind(n)] else [IChoice(2 + |g|)] + g + [IBackCommit(2), IFail]
  {
    var g := Gen(rules, p, false, NoTest, FULL, da);
    SavedAnd(g);
    hide FixedLen, FullAnd;
  }

  lemma SavedAnd(g: seq<Instr>)
    ensures FullAnd(g) == [IChoice(2 + |g|)] + g + [IBackCommit(2), IFail]
  {
    var x := [IChoice(2 + |g|)];
    assert [] + x == x;
    assert x + g + [IBackCommit(2)] + [IFail] == x + g + ([IBackCommit(2)] + [IFail]);
  }

  lemma Pair(rules: seq<Tree>, a: Byte, b: Byte, opt: bool, tt: Test, fl: Charset, da: nat)
    ensures var p := TSeq(TChar(a), TChar(b));
            && Gen(rules, p, opt, tt, fl, da) == CodeChar(a, tt) + [IChar(b)]
            && GetFirst(rules, p, fl, da) == First({a}, false) && !HeadFail(rules, p, da)
            && FixedLen(rules, p, da) == Some(2)
  {
    assert Gen(rules, TChar(b), opt, NoTest, fl, da) == [IChar(b)];
    assert FixedLen(rules, TChar(a), da) == Some(1);
    assert FixedLen(rules, TChar(b), da) == Some(1);
  }

  /** A choice decided by its first character although both sides may begin with it: 'a' [cs]* / q and . .* / q. */
  lemma HeadDecides(rules: seq<Tree>, a: Byte, cs: Charset, fl: Charset, da: nat)
    requires CharsetType(cs) == OtherSet
    ensures Gen(rules, TChoice(TSeq(TChar(a), TRep(TSet(cs))), TSet(cs)), false, NoTest, fl, da) ==
            [ITestChar(a, 4), IAny, ISpan(cs), IJmp(2), ISet(cs)]
    ensures Gen(rules, TChoice(TSeq(TAny, TRep(TAny)), TChar(a)), false, NoTest, fl, da) ==
            [ITestAny(4), IAny, ISpan(FULL), IJmp(2), IChar(a)]
  {
    SetKinds(a);
    HeadThenSpan(rules, TChar(a), TSet(cs), ByChar(a), fl, da);
    HeadThenSpan(rules, TAny, TAny, NoTest, fl, da);
    assert Gen(rules, TSet(cs), false, NoTest, fl, da) == [ISet(cs)];
    assert Gen(rules, TChar(a), false, NoTest, fl, da) == [IChar(a)];
  }

  lemma HeadThenSpan(rules: seq<Tree>, c: Tree, b: Tree, tt: Test, fl: Charset, da: nat)
    requires (c.TChar? && tt == ByChar(c.c)) || c.TAny?
    requires IsCharPattern(b)
    ensures var p := TSeq(c, TRep(b));
            && Gen(rules, p, false, tt, fl, da) == [IAny, ISpan(CharsetOf(b))]
            && HeadFail(rules, p, da) && GetFirst(rules, p, FULL, da) == First(CharsetOf(c), false)
  {
    assert Gen(rules, c, false, tt, SeqFollow(rules, c, TRep(b), fl, da), da) == [IAny];
    assert CheckAux(rules, TRep(b), Nofail, da);
  }

  /** One decided because the sides begin differently: [cs] 'b' / 'c' 'b'. */
  lemma DisjointDecides(rules: seq<Tree>, b: Byte, c: Byte, cs: Charset, fl: Charset, da: nat)
    requires CharsetType(cs) == OtherSet && c !in cs
    ensures Gen(rules, TChoice(TSeq(TSet(cs), TChar(b)), TSeq(TChar(c), TChar(b))), false, NoTest, fl, da) ==
            [ITestSet(cs, 4), IAny, IChar(b), IJmp(3), IChar(c), IChar(b)]
  {
    var p := TSeq(TSet(cs), TChar(b));
    Pair(rules, c, b, false, NoTest, fl, da);
    assert Gen(rules, TChar(b), false, NoTest, fl, da) == [IChar(b)];
    assert Gen(rules, TSet(cs), false, BySet(cs), FULL, da) == [IAny];
    assert FixedLen(rules, TSet(cs), da) == Some(1);
    assert Gen(rules, p, false, BySet(cs), fl, da) == [IAny, IChar(b)];
    assert !CheckAux(rules, TChar(b), Nofail, da) && GetFirst(rules, TSet(cs), FULL, da) == First(cs, false);
    assert GetFirst(rules, p, FULL, da) == First(cs, false);
    assert cs * {c} == {};
    assert Gen(rules, TSeq(TChar(c), TChar(b)), false, NoTest, fl, da) == [IChar(c), IChar(b)];
  }

  /** A test reaches over parts that consume nothing: (&'a' 'a') / 'b'. */
  lemma TestReaches(rules: seq<Tree>, a: Byte, b: Byte, fl: Charset, da: nat)
    requires a != b
    ensures Gen(rules, TChoice(TSeq(TAnd(TChar(a)), TChar(a)), TChar(b)), false, NoTest, fl, da) ==
            [ITestChar(a, 5), IAny, IBehind(1), IAny, IJmp(2), IChar(b)]
  {
    SetKinds(a);
    var and, p := TAnd(TChar(a)), TSeq(TAnd(TChar(a)), TChar(a));
    assert {a} * {a} == {a};
    assert FixedLen(rules, TChar(a), da) == Some(1) && FixedLen(rules, and, da) == Some(0);
    assert Gen(rules, TChar(a), false, ByChar(a), FULL, da) == [IAny];
    assert Gen(rules, and, false, ByChar(a), FULL, da) == [IAny, IBehind(1)];
    assert Gen(rules, TChar(a), false, ByChar(a), fl, da) == [IAny];
    assert Gen(rules, p, false, ByChar(a), fl, da) == [IAny, IBehind(1), IAny];
    assert GetFirst(rules, TChar(a), FULL, da) == GetFirst(rules, TChar(a), {a}, da) == First({a}, false);
    assert GetFirst(rules, and, {a}, da) == First({a}, false);
    assert GetFirst(rules, p, FULL, da) == First({a}, false);
    assert Gen(rules, TChar(b), false, NoTest, fl, da) == [IChar(b)];
    assert Disjoint({a}, {b});
  }

  /** Repetitions: ('a' 'b')* before anything, and before 'c'. */
  lemma Repetitions(rules: seq<Tree>, a: Byte, b: Byte, c: Byte, fl: Charset, da: nat)
    requires a != c
    ensures Gen(rules, TRep(TSeq(TChar(a), TChar(b))), false, NoTest, FULL, da) ==
            [ITestChar(a, 5), IChoice(4), IChar(a), IChar(b), IPartialCommit(-2)]
    ensures Gen(rules, TSeq(TRep(TSeq(TChar(a), TChar(b))), TChar(c)), false, NoTest, fl, da) ==
            [ITestChar(a, 4), IAny, IChar(b), IJmp(-3), IChar(c)]
  {
    SetKinds(a);
    var p := TSeq(TChar(a), TChar(b));
    Pair(rules, a, b, false, NoTest, FULL, da);
    Pair(rules, a, b, false, ByChar(a), FULL, da);
    assert a in {a} * FULL;
    assert Disjoint({a}, {c});
    assert GetFirst(rules, TChar(c), fl, da) == First({c}, false);
    assert Gen(rules, TChar(c), false, NoTest, fl, da) == [IChar(c)];
    assert Gen(rules, TRep(p), false, NoTest, {c}, da) == [ITestChar(a, 4), IAny, IChar(b), IJmp(-3)];
  }

  /** Options: ('a' 'b')?, and ('a' 'b' ('c' 'd')?)?, where the inner one reuses the entry of the outer one. */
  lemma Options(rules: seq<Tree>, a: Byte, b: Byte, c: Byte, d: Byte, da: nat)
    ensures Gen(rules, TChoice(TSeq(TChar(a), TChar(b)), TTrue), false, NoTest, FULL, da) ==
            [ITestChar(a, 5), IChoice(4), IAny, IChar(b), ICommit(1)]
    ensures var inner := TChoice(TSeq(TChar(c), TChar(d)), TTrue);
            Gen(rules, TChoice(TSeq(TChar(a), TSeq(TChar(b), inner)), TTrue), false, NoTest, FULL, da) ==
            [ITestChar(a, 8), IChoice(7), IAny, IChar(b), IPartialCommit(1), IChar(c), IChar(d), ICommit(1)]
  {
    SetKinds(a);
    assert a in {a} * FULL && c in {c} * FULL;
    Pair(rules, a, b, true, ByChar(a), FULL, da);
    Pair(rules, a, b, false, NoTest, FULL, da);
    Pair(rules, c, d, true, NoTest, FULL, da);
    var inner := TChoice(TSeq(TChar(c), TChar(d)), TTrue);
    assert Gen(rules, inner, true, NoTest, FULL, da) == [IPartialCommit(1), IChar(c), IChar(d)];
    var tail := TSeq(TChar(b), inner);
    assert FixedLen(rules, TChar(a), da) == Some(1) && FixedLen(rules, TChar(b), da) == Some(1);
    assert Gen(rules, TChar(b), false, NoTest, FULL, da) == [IChar(b)];
    assert Gen(rules, tail, true, NoTest, FULL, da) == [IChar(b), IPartialCommit(1), IChar(c), IChar(d)];
    var p := TSeq(TChar(a), tail);
    assert Gen(rules, TChar(a), false, ByChar(a), FULL, da) == [IAny];
    assert Gen(rules, p, true, ByChar(a), FULL, da) == [IAny, IChar(b), IPartialCommit(1), IChar(c), IChar(d)];
    assert !CheckAux(rules, tail, Nofail, da) && !HeadFail(rules, p, da);
    assert GetFirst(rules, p, FULL, da) == First({a}, false);
  }

  /** A repetition that is entered by a test and goes on by partial commits. */
  lemma FullRepetition(rules: seq<Tree>, p: Tree, cs: Charset, g: seq<Instr>, da: nat)
    requires !IsCharPattern(p) && !HeadFail(rules, p, da) && cs != {} && CharsetType(cs) == OtherSet
    requires GetFirst(rules, p, FULL, da) == First(cs, false) && Gen(rules, p, false, NoTest, FULL, da) == g
    ensures Gen(rules, TRep(p), false, NoTest, FULL, da) ==
            [ITestSet(cs, 3 + |g|), IChoice(2 + |g|)] + g + [IPartialCommit(-|g|)]
  {
    var x :| x in cs;
    assert x in cs * FULL;
    assert !RepByTest(rules, p, FULL, da);
    FullCode(cs, g);
    hide GetFirst, HeadFail, FullRep, TestInstr;
  }

  lemma FullCode(cs: Charset, g: seq<Instr>)
    requires CharsetType(cs) == OtherSet
    ensures FullRep(First(cs, false), false, g) ==
            [ITestSet(cs, 3 + |g|), IChoice(2 + |g|)] + g + [IPartialCommit(-|g|)]
  {
    hide CharsetType;
  }

  lemma AnyThen(rules: seq<Tree>, c: Byte, da: nat)
    ensures var tail := TSeq(TAny, TChar(c));
            && Gen(rules, tail, false, NoTest, FULL, da) == [IAny, IChar(c)]
            && GetFirst(rules, tail, FULL, da) == First(FULL, false) && !CheckAux(rules, tail, Nofail, da)
  {
    assert Gen(rules, TChar(c), false, NoTest, FULL, da) == [IChar(c)];
  }

  /** Predicates narrow the test: (!'b' . 'c')* */
  lemma NarrowedByNot(rules: seq<Tree>, b: Byte, c: Byte, da: nat)
    requires CharsetType(Complement({b})) == OtherSet
    ensures Gen(rules, TRep(TSeq(TNot(TChar(b)), TSeq(TAny, TChar(c)))), false, NoTest, FULL, da) ==
            [ITestSet(Complement({b}), 7), IChoice(6), ITestChar(b, 2), IFail, IAny, IChar(c), IPartialCommit(-4)]
  {
    SetKinds(b);
    AnyThen(rules, c, da);
    NotIsTest(rules, TChar(b), {b}, FULL, da);
    var tail, not := TSeq(TAny, TChar(c)), TNot(TChar(b));
    var p := TSeq(not, tail);
    assert GetFirst(rules, not, FULL, da) == First(Complement({b}), true);
    assert Gen(rules, p, false, NoTest, FULL, da) == [ITestChar(b, 2), IFail, IAny, IChar(c)];
    FullRepetition(rules, p, Complement({b}), [ITestChar(b, 2), IFail, IAny, IChar(c)], da);
  }

  /** and (&[cs] . 'c')*. */
  lemma NarrowedByAnd(rules: seq<Tree>, c: Byte, cs: Charset, da: nat)
    requires CharsetType(cs) == OtherSet
    ensures Gen(rules, TRep(TSeq(TAnd(TSet(cs)), TSeq(TAny, TChar(c)))), false, NoTest, FULL, da) ==
            [ITestSet(cs, 7), IChoice(6), ISet(cs), IBehind(1), IAny, IChar(c), IPartialCommit(-4)]
  {
    AnyThen(rules, c, da);
    var tail, and := TSeq(TAny, TChar(c)), TAnd(TSet(cs));
    var p := TSeq(and, tail);
    assert cs * FULL == cs;
    assert FixedLen(rules, TSet(cs), da) == Some(1);
    assert Gen(rules, TSet(cs), false, NoTest, FULL, da) == [ISet(cs)];
    assert Gen(rules, and, false, NoTest, FULL, da) == [ISet(cs), IBehind(1)];
    assert GetFirst(rules, TSet(cs), FULL, da) == First(cs, false);
    assert GetFirst(rules, and, FULL, da) == First(cs, false);
    assert Gen(rules, p, false, NoTest, FULL, da) == [ISet(cs), IBehind(1), IAny, IChar(c)];
    FullRepetition(rules, p, cs, [ISet(cs), IBehind(1), IAny, IChar(c)], da);
  }
}
