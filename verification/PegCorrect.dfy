/** Generated code does on the machine what the pattern means. */
module PegCorrect {
  import opened Wrappers
  import opened PegTree
  import opened PegAnalysis
  import opened PegMachine
  import opened PegCode
  import opened PegPlacement
  import opened PegClosed

  /** A program, a subject, the rules in scope with their positions in the program, and a view
      of machine states that running a step does not change (`PegMachine.Eff` is one). */
  datatype Env = Env(code: seq<Instr>, s: seq<Byte>, rules: seq<Tree>, starts: seq<nat>, da: nat,
                     eff: State -> Effect) {

    function Block(t: Tree, opt: bool, tt: Test, fl: Charset): seq<Instr> {
      Gen(rules, t, opt, tt, fl, da)
    }

    ghost predicate Has(base: nat, block: seq<Instr>) {
      At(code, base, block, starts)
    }

    ghost predicate RuleAt(k: nat)
      requires k < |rules| == |starts|
    {
      Wf(rules, rules[k]) && Has(starts[k], Block(rules[k], false, NoTest, FULL) + [IRet])
    }

    ghost predicate StepsKeepView() {
      forall x {:trigger Step(code, s, x)} :: eff(x) == eff(Step(code, s, x))
    }

    lemma Go(x: State)
      requires StepsKeepView()
      ensures E(x) == E(Step(code, s, x))
    {
    }

    // What each instruction does, seen through the view.

    predicate Is(p: int, ins: Instr) {
      0 <= p < |code| && code[p] == ins
    }

    lemma DoAny(p: int, i: nat, st: Stack)
      requires StepsKeepView() && Is(p, IAny) && i <= |s|
      ensures E(Run(p, i, st)) == E(if i < |s| then Run(p + 1, i + 1, st) else FailTo(st))
    {
      Go(Run(p, i, st));
    }

    lemma DoSpan(p: int, cs: Charset, i: nat, st: Stack)
      requires StepsKeepView() && Is(p, ISpan(cs)) && i <= |s|
      ensures E(Run(p, i, st)) == E(Run(p + 1, SpanEnd(cs, s, i), st))
    {
      Go(Run(p, i, st));
    }

    lemma DoBehind(p: int, n: nat, i: nat, st: Stack)
      requires StepsKeepView() && Is(p, IBehind(n)) && i <= |s|
      ensures E(Run(p, i, st)) == E(if n > i then FailTo(st) else Run(p + 1, i - n, st))
    {
      Go(Run(p, i, st));
    }

    lemma DoJmp(p: int, off: int, i: nat, st: Stack)
      requires StepsKeepView() && Is(p, IJmp(off)) && i <= |s|
      ensures E(Run(p, i, st)) == E(Run(p + off, i, st))
    {
      Go(Run(p, i, st));
    }

    lemma DoCall(p: int, off: int, i: nat, st: Stack)
      requires StepsKeepView() && Is(p, ICall(off)) && i <= |s|
      ensures E(Run(p, i, st)) == E(Run(p + off, i, Return(p + 1, st)))
    {
      Go(Run(p, i, st));
    }

    lemma DoRet(p: int, pc: int, i: nat, st: Stack)
      requires StepsKeepView() && Is(p, IRet) && i <= |s|
      ensures E(Run(p, i, Return(pc, st))) == E(Run(pc, i, st))
    {
      Go(Run(p, i, Return(pc, st)));
    }

    lemma DoFail(p: int, i: nat, st: Stack)
      requires StepsKeepView() && Is(p, IFail) && i <= |s|
      ensures E(Run(p, i, st)) == E(FailTo(st))
    {
      Go(Run(p, i, st));
    }

    lemma DoChoice(p: int, off: int, i: nat, st: Stack)
      requires StepsKeepView() && Is(p, IChoice(off)) && i <= |s|
      ensures E(Run(p, i, st)) == E(Run(p + 1, i, Back(p + off, i, st)))
    {
      Go(Run(p, i, st));
    }

    lemma DoCommit(p: int, off: int, i: nat, l: int, k: nat, st: Stack)
      requires StepsKeepView() && Is(p, ICommit(off)) && i <= |s|
      ensures E(Run(p, i, Back(l, k, st))) == E(Run(p + off, i, st))
    {
      Go(Run(p, i, Back(l, k, st)));
    }

    lemma DoPartialCommit(p: int, off: int, i: nat, l: int, k: nat, st: Stack)
      requires StepsKeepView() && Is(p, IPartialCommit(off)) && i <= |s|
      ensures E(Run(p, i, Back(l, k, st))) == E(Run(p + off, i, Back(l, i, st)))
    {
      Go(Run(p, i, Back(l, k, st)));
    }

    lemma DoBackCommit(p: int, off: int, i: nat, l: int, k: nat, st: Stack)
      requires StepsKeepView() && Is(p, IBackCommit(off)) && i <= |s|
      ensures E(Run(p, i, Back(l, k, st))) == E(Run(p + off, k, st))
    {
      Go(Run(p, i, Back(l, k, st)));
    }

    lemma DoFailTwice(p: int, i: nat, l: int, k: nat, st: Stack)
      requires StepsKeepView() && Is(p, IFailTwice) && i <= |s|
      ensures E(Run(p, i, Back(l, k, st))) == E(FailTo(st))
    {
      Go(Run(p, i, Back(l, k, st)));
    }

    lemma DoTest(p: int, cs: Charset, off: int, i: nat, st: Stack)
      requires StepsKeepView() && Is(p, TestInstr(cs, off)) && i <= |s|
      ensures E(Run(p, i, st)) == E(Run(if Accepts(s, i, cs) then p + 1 else p + off, i, st))
    {
      Go(Run(p, i, st));
    }

    lemma DoCharset(p: nat, cs: Charset, tt: Test, i: nat, st: Stack)
      requires StepsKeepView() && i <= |s| && TestHolds(tt, s, i) && Has(p, CodeCharset(cs, tt))
      ensures |CodeCharset(cs, tt)| == 1
      ensures E(Run(p, i, st)) == E(if Accepts(s, i, cs) then Run(p + 1, i + 1, st) else FailTo(st))
    {
      CharsetStep(code, s, p, cs, tt, i, st, starts);
      Go(Run(p, i, st));
    }

    lemma DoChar(p: nat, c: Byte, tt: Test, i: nat, st: Stack)
      requires StepsKeepView() && i <= |s| && TestHolds(tt, s, i) && Has(p, CodeChar(c, tt))
      ensures E(Run(p, i, st)) == E(if Accepts(s, i, {c}) then Run(p + 1, i + 1, st) else FailTo(st))
    {
      CharStep(code, s, p, c, tt, i, st, starts);
      Go(Run(p, i, st));
    }

    ghost predicate Valid() {
      StepsKeepView() && |starts| == |rules| && forall k :: 0 <= k < |rules| ==> RuleAt(k)
    }

    function M(t: Tree, i: nat, d: nat): Outcome
      requires i <= |s|
    {
      Match(rules, t, s, i, d)
    }

    ghost function E(x: State): Effect {
      eff(x)
    }

    /** If the match ends where the next character is outside `fl`, the rest of the program fails. */
    ghost predicate FollowOk(o: Outcome, end: int, st: Stack, fl: Charset) {
      o.Ok? && NextOutside(s, o.j, fl) ==> E(Run(end, o.j, st)) == E(FailTo(st))
    }

    /** The rest of the program drops the choice on top of the stack and goes where that
        choice leads, whatever position it saved. */
    ghost predicate OptOk(end: int, st: Stack) {
      st.Back? &&
      forall j: nat, k: nat :: j <= |s| ==>
        E(Run(end, j, Back(st.pc, k, st.below))) == E(Run(st.pc, j, st.below))
    }

    /** What a match that ends in `o` must lead to. */
    ghost function After(o: Outcome, end: int, st: Stack): Effect {
      match o
      case Ok(j) => E(Run(end, j, st))
      case Fail => E(FailTo(st))
      case Diverge => Forever
    }

    /** The block is at `base`, the match of `t` ends, the test holds, and the rest of the program
        treats the follow set and the open choice as promised. */
    ghost predicate Ready(base: nat, block: seq<Instr>, t: Tree, opt: bool, tt: Test, fl: Charset, i: nat, st: Stack,
                          d: nat) {
      i <= |s| && Valid() && Wf(rules, t) && Has(base, block) && TestHolds(tt, s, i) &&
      M(t, i, d) != Diverge &&
      FollowOk(M(t, i, d), base + |block|, st, fl) && (opt ==> OptOk(base + |block|, st))
    }

    /** Going to the block is the same as going to its end where the match ends, or failing. */
    ghost predicate Agrees(base: nat, block: seq<Instr>, t: Tree, i: nat, st: Stack, d: nat) {
      i <= |s| && E(Run(base, i, st)) == After(M(t, i, d), base + |block|, st)
    }
  }

  /** The code of a pattern, entered at position `i`, has the effect of the match of the pattern. */
  lemma {:induction false} GenCorrect(env: Env, base: nat, t: Tree, opt: bool, tt: Test, fl: Charset, i: nat, st: Stack,
                                      d: nat)
    requires env.Ready(base, env.Block(t, opt, tt, fl), t, opt, tt, fl, i, st, d)
    ensures env.Agrees(base, env.Block(t, opt, tt, fl), t, i, st, d)
    decreases d, t, |env.s| - i, 2
  {
    match t
    case TChar(c) => env.DoChar(base, c, tt, i, st);
    case TSet(cs) => env.DoCharset(base, cs, tt, i, st);
    case TAny =>
      AtOne(env.code, base, IAny, env.starts);
      env.DoAny(base, i, st);
    case TTrue =>
    case TFalse =>
      AtOne(env.code, base, IFail, env.starts);
      env.DoFail(base, i, st);
    case TSeq(p1, p2) => SeqCorrect(env, base, p1, p2, opt, tt, fl, i, st, d);
    case TChoice(p1, p2) =>
      if ChoiceByTest(env.rules, p1, p2, fl, env.da) {
        TestedChoiceCorrect(env, base, GetFirst(env.rules, p1, FULL, env.da), p1, p2, opt, tt, fl, i, st, d);
      } else if opt && p2.TTrue? {
        ReusedChoiceCorrect(env, base, p1, p2, tt, fl, i, st, d);
      } else {
        FullChoiceCorrect(env, base, GetFirst(env.rules, p1, FULL, env.da), p1, p2, opt, tt, fl, i, st, d);
      }
    case TRep(b) =>
      if IsCharPattern(b) {
        AtOne(env.code, base, ISpan(CharsetOf(b)), env.starts);
        env.DoSpan(base, CharsetOf(b), i, st);
        SpanIsRep(env.rules, b, env.s, i, d);
      } else if RepByTest(env.rules, b, fl, env.da) {
        TestedRepCorrect(env, base, GetFirst(env.rules, b, FULL, env.da), b, opt, tt, fl, i, st, d);
      } else {
        FullRepCorrect(env, base, GetFirst(env.rules, b, FULL, env.da), b, opt, tt, fl, i, st, d);
      }
    case TNot(b) =>
      var f := GetFirst(env.rules, b, FULL, env.da);
      if HeadFail(env.rules, b, env.da) {
        TestedNotCorrect(env, base, f, b, tt, fl, i, st, d);
      } else {
        FullNotCorrect(env, base, f, b, tt, fl, i, st, d);
      }
    case TAnd(b) => AndCorrect(env, base, b, opt, tt, fl, i, st, d);
    case TBehind(b, n) => BehindCorrect(env, base, b, n, opt, tt, fl, i, st, d);
    case TCall(r) => CallCorrect(env, base, r, opt, tt, fl, i, st, d);
    case TGrammar(rs) => GrammarCorrect(env, base, rs, opt, tt, fl, i, st, d);
  }

  /** The span instruction does what repeating a one-character pattern does. */
  lemma {:induction false} SpanIsRep(rules: seq<Tree>, b: Tree, s: seq<Byte>, i: nat, d: nat)
    requires i <= |s| && IsCharPattern(b)
    ensures Match(rules, TRep(b), s, i, d) == Ok(SpanEnd(CharsetOf(b), s, i))
    decreases |s| - i
  {
    if Accepts(s, i, CharsetOf(b)) { SpanIsRep(rules, b, s, i + 1, d); }
  }

  lemma TestBlockStep(env: Env, base: nat, f: First, off: int, i: nat, st: Stack)
    requires i <= |env.s| && env.StepsKeepView() && env.Has(base, TestBlock(f.cs, f.e, off))
    ensures env.E(Run(base, i, st)) ==
            env.E(Run(if f.e || Accepts(env.s, i, f.cs) then base + |TestBlock(f.cs, f.e, off)| else base + off, i, st))
  {
    if !f.e {
      AtOne(env.code, base, TestInstr(f.cs, off), env.starts);
      env.DoTest(base, f.cs, off, i, st);
    }
  }

  /** Jumps that lead to a return do nothing but return. */
  lemma {:induction false} RetByJumps(env: Env, p: int, q: int, n: nat, i: nat, st: Stack)
    requires i <= |env.s| && env.StepsKeepView() && ReachesRet(env.code, p, n) && IsRet(env.code, q)
    ensures env.E(Run(p, i, st)) == env.E(Run(q, i, st))
    decreases n
  {
    env.Go(Run(p, i, st));
    env.Go(Run(q, i, st));
    if !env.code[p].IRet? {
      RetByJumps(env, p + env.code[p].off, q, n - 1, i, st);
    }
  }

  /** A pattern whose test rejects the next character fails. */
  lemma RejectedFails(env: Env, p: Tree, i: nat, d: nat)
    requires i <= |env.s| && env.M(p, i, d) != Diverge
    requires !GetFirst(env.rules, p, FULL, env.da).e
    requires !Accepts(env.s, i, GetFirst(env.rules, p, FULL, env.da).cs)
    ensures env.M(p, i, d) == Fail
  {
    if i == |env.s| {
      FirstFailsAtEnd(env.rules, p, env.s, d, FULL, env.da);
    } else {
      FirstSound(env.rules, p, env.s, i, d, FULL, env.da);
    }
  }

  /** Sequence: the follow set of the first part is the first set of the second. */
  lemma {:induction false} SeqCorrect(env: Env, base: nat, p1: Tree, p2: Tree, opt: bool, tt: Test, fl: Charset, i: nat,
                                      st: Stack, d: nat)
    requires env.Ready(base, env.Block(p1, false, tt, SeqFollow(env.rules, p1, p2, fl, env.da)) +
                       env.Block(p2, opt, SeqTest(env.rules, p1, tt, env.da), fl), TSeq(p1, p2), opt, tt, fl, i, st, d)
    ensures env.Agrees(base, env.Block(p1, false, tt, SeqFollow(env.rules, p1, p2, fl, env.da)) +
                       env.Block(p2, opt, SeqTest(env.rules, p1, tt, env.da), fl), TSeq(p1, p2), i, st, d)
    decreases d, TSeq(p1, p2), |env.s| - i, 1
  {
    hide Gen, At;
    var fl1 := SeqFollow(env.rules, p1, p2, fl, env.da);
    var tt2 := SeqTest(env.rules, p1, tt, env.da);
    var b1, b2 := env.Block(p1, false, tt, fl1), env.Block(p2, opt, tt2, fl);
    var mid := base + |b1|;
    AtSplit(env.code, base, b1, b2, env.starts);
    var o1 := env.M(p1, i, d);
    if o1.Ok? {
      if tt2 != NoTest { FixedLenExact(env.rules, p1, env.s, i, d, env.da); }
      GenCorrect(env, mid, p2, opt, tt2, fl, o1.j, st, d);
      if NeedFollow(p1) && NextOutside(env.s, o1.j, fl1) {
        FirstSound(env.rules, p2, env.s, o1.j, d, fl, env.da);
      }
    }
    GenCorrect(env, base, p1, false, tt, fl1, i, st, d);
  }

  /** Nothing is generated for the pattern that always matches. */
  lemma TrueHasNoCode(env: Env, p: Tree, opt: bool, fl: Charset)
    ensures p.TTrue? ==> env.Block(p, opt, NoTest, fl) == []
  {
  }

  /** Where the parts of a tested choice are. */
  lemma TestedChoicePlaced(env: Env, base: nat, cs: Charset, b1: seq<Instr>, emptyp2: bool, b2: seq<Instr>)
    requires env.Has(base, TestedChoice(cs, b1, emptyp2, b2)) && (emptyp2 ==> b2 == [])
    ensures var end1 := base + 1 + |b1|;
            var next := if emptyp2 then end1 else end1 + 1;
            && env.Is(base, TestInstr(cs, next - base)) && env.Has(base + 1, b1)
            && (!emptyp2 ==> env.Is(end1, IJmp(1 + |b2|))) && env.Has(next, b2)
            && base + |TestedChoice(cs, b1, emptyp2, b2)| == next + |b2|
  {
    hide At;
    var jmp := if emptyp2 then [] else [IJmp(1 + |b2|)];
    var test := TestBlock(cs, false, 1 + |b1| + |jmp|);
    assert TestedChoice(cs, b1, emptyp2, b2) == test + (b1 + (jmp + b2));
    AtSplit(env.code, base, test, b1 + (jmp + b2), env.starts);
    AtSplit(env.code, base + 1, b1, jmp + b2, env.starts);
    AtSplit(env.code, base + 1 + |b1|, jmp, b2, env.starts);
    AtOne(env.code, base, TestInstr(cs, 1 + |b1| + |jmp|), env.starts);
    if !emptyp2 { AtOne(env.code, base + 1 + |b1|, jmp[0], env.starts); }
  }

  /** Choice decided by one test, with no backtrack entry. */
  lemma {:induction false} TestedChoiceCorrect(env: Env, base: nat, f1: First, p1: Tree, p2: Tree, opt: bool, tt: Test,
                                               fl: Charset, i: nat, st: Stack, d: nat)
    requires env.Ready(base, TestedChoice(f1.cs, env.Block(p1, false, Protection(f1.cs, false), fl), p2.TTrue?,
                                          env.Block(p2, opt, NoTest, fl)), TChoice(p1, p2), opt, tt, fl, i, st, d)
    requires f1 == GetFirst(env.rules, p1, FULL, env.da) && ChoiceByTest(env.rules, p1, p2, fl, env.da)
    ensures env.Agrees(base, TestedChoice(f1.cs, env.Block(p1, false, Protection(f1.cs, false), fl), p2.TTrue?,
                                          env.Block(p2, opt, NoTest, fl)), TChoice(p1, p2), i, st, d)
    decreases d, TChoice(p1, p2), |env.s| - i, 1
  {
    hide Gen, At, TestedChoice, Env.OptOk, ChoiceByTest, HeadFail, GetFirst;
    var tt1 := Protection(f1.cs, false);
    var b1, b2 := env.Block(p1, false, tt1, fl), env.Block(p2, opt, NoTest, fl);
    TrueHasNoCode(env, p2, opt, fl);
    TestedChoicePlaced(env, base, f1.cs, b1, p2.TTrue?, b2);
    var end1 := base + 1 + |b1|;
    var next := if p2.TTrue? then end1 else end1 + 1;
    env.DoTest(base, f1.cs, next - base, i, st);
    ByTestFirst(env, f1, p1, p2, fl, i, d);
    var o1 := env.M(p1, i, d);
    if Accepts(env.s, i, f1.cs) {
      if o1.Ok? && !p2.TTrue? { env.DoJmp(end1, 1 + |b2|, o1.j, st); }
      GenCorrect(env, base + 1, p1, false, tt1, fl, i, st, d);
    } else {
      RejectedFails(env, p1, i, d);
      GenCorrect(env, next, p2, opt, NoTest, fl, i, st, d);
    }
  }

  /** The test decides: if the first alternative fails behind it, so does the second. */
  lemma ByTestFirst(env: Env, f1: First, p1: Tree, p2: Tree, fl: Charset, i: nat, d: nat)
    requires i <= |env.s| && env.M(TChoice(p1, p2), i, d) != Diverge
    requires f1 == GetFirst(env.rules, p1, FULL, env.da) && ChoiceByTest(env.rules, p1, p2, fl, env.da)
    ensures !f1.e
    ensures Accepts(env.s, i, f1.cs) && env.M(p1, i, d).Fail? ==>
              env.M(p2, i, d).Fail? || (env.M(p2, i, d) == Ok(i) && NextOutside(env.s, i, fl))
  {
    if HeadFail(env.rules, p1, env.da) { HeadFailAllowsTest(env.rules, p1, FULL, env.da); }
    if Accepts(env.s, i, f1.cs) {
      if HeadFail(env.rules, p1, env.da) {
        HeadFailExact(env.rules, p1, env.s, i, d, env.da);
      } else {
        FirstSound(env.rules, p2, env.s, i, d, fl, env.da);
      }
    }
  }

  /** An optional pattern that ends an optional pattern reuses the choice already on the stack. */
  lemma {:induction false} ReusedChoiceCorrect(env: Env, base: nat, p1: Tree, p2: Tree, tt: Test, fl: Charset, i: nat,
                                               st: Stack, d: nat)
    requires env.Ready(base, [IPartialCommit(1)] + env.Block(p1, true, NoTest, FULL), TChoice(p1, p2), true, tt, fl, i,
                       st, d)
    requires p2.TTrue?
    ensures env.Agrees(base, [IPartialCommit(1)] + env.Block(p1, true, NoTest, FULL), TChoice(p1, p2), i, st, d)
    decreases d, TChoice(p1, p2), |env.s| - i, 1
  {
    hide Gen, At, Env.After;
    var b1 := env.Block(p1, true, NoTest, FULL);
    AtSplit(env.code, base, [IPartialCommit(1)], b1, env.starts);
    AtOne(env.code, base, IPartialCommit(1), env.starts);
    env.DoPartialCommit(base, 1, i, st.pc, st.pos, st.below);
    var st' := Back(st.pc, i, st.below);
    var end := base + |[IPartialCommit(1)] + b1|;
    GenCorrect(env, base + 1, p1, true, NoTest, FULL, i, st', d);
    ReusedEnds(env, base, end, p1, p2, i, st, d);
  }

  /** The reused choice leads to the end whether or not the optional pattern matches. */
  lemma ReusedEnds(env: Env, base: nat, end: nat, p1: Tree, p2: Tree, i: nat, st: Stack, d: nat)
    requires i <= |env.s| && p2.TTrue? && env.OptOk(end, st) && env.M(TChoice(p1, p2), i, d) != Diverge
    requires env.E(Run(base, i, st)) == env.After(env.M(p1, i, d), end, Back(st.pc, i, st.below))
    ensures env.E(Run(base, i, st)) == env.After(env.M(TChoice(p1, p2), i, d), end, st)
  {
    OptUse(env, end, st, i);
    var o1 := env.M(p1, i, d);
    if o1.Ok? {
      OptUse(env, end, st, o1.j);
      OptUse(env, end, Back(st.pc, i, st.below), o1.j);
    } else {
      assert env.M(p2, i, d) == Ok(i);
    }
  }

  /** Choice with a backtrack entry. */
  lemma {:induction false} FullChoiceCorrect(env: Env, base: nat, f1: First, p1: Tree, p2: Tree, opt: bool, tt: Test,
                                             fl: Charset, i: nat, st: Stack, d: nat)
    requires env.Ready(base, FullChoice(f1, env.Block(p1, p2.TTrue?, Protection(f1.cs, f1.e), FULL),
                                        env.Block(p2, opt, NoTest, fl)), TChoice(p1, p2), opt, tt, fl, i, st, d)
    requires f1 == GetFirst(env.rules, p1, FULL, env.da)
    ensures env.Agrees(base, FullChoice(f1, env.Block(p1, p2.TTrue?, Protection(f1.cs, f1.e), FULL),
                                        env.Block(p2, opt, NoTest, fl)), TChoice(p1, p2), i, st, d)
    decreases d, TChoice(p1, p2), |env.s| - i, 1
  {
    hide Gen, At;
    var tt1 := Protection(f1.cs, f1.e);
    var b1, b2 := env.Block(p1, p2.TTrue?, tt1, FULL), env.Block(p2, opt, NoTest, fl);
    var test := TestBlock(f1.cs, f1.e, 3 + |b1|);
    AtAround(env.code, base, test, IChoice(2 + |b1|), b1, ICommit(1 + |b2|), b2, env.starts);
    var pc := base + |test|;
    var end1 := pc + 1 + |b1|;
    TestBlockStep(env, base, f1, 3 + |b1|, i, st);
    if f1.e || Accepts(env.s, i, f1.cs) {
      EnteredAgrees(env, pc, f1, p1, p2, b1, opt, fl, i, st, d);
    } else {
      RejectedFails(env, p1, i, d);
    }
    if env.M(p1, i, d).Fail? { GenCorrect(env, end1 + 1, p2, opt, NoTest, fl, i, st, d); }
  }

  /** A choice whose first alternative is tried leads to its end or to the second alternative. */
  lemma {:induction false} EnteredAgrees(env: Env, pc: nat, f1: First, p1: Tree, p2: Tree, b1: seq<Instr>, opt: bool,
                                         fl: Charset, i: nat, st: Stack, d: nat)
    requires i <= |env.s| && env.Valid() && Wf(env.rules, p1) && env.M(p1, i, d) != Diverge
    requires f1 == GetFirst(env.rules, p1, FULL, env.da) && (f1.e || Accepts(env.s, i, f1.cs))
    requires b1 == env.Block(p1, p2.TTrue?, Protection(f1.cs, f1.e), FULL) && env.Has(pc + 1, b1)
    requires env.Is(pc, IChoice(2 + |b1|))
    requires env.Is(pc + 1 + |b1|, ICommit(1 + |env.Block(p2, opt, NoTest, fl)|))
    ensures var o1 := env.M(p1, i, d);
            env.E(Run(pc, i, st)) ==
            if o1.Ok? then env.E(Run(pc + 2 + |b1| + |env.Block(p2, opt, NoTest, fl)|, o1.j, st))
            else env.E(Run(pc + 2 + |b1|, i, st))
    decreases d, TChoice(p1, p2), |env.s| - i, 0
  {
    hide Gen, At;
    var n2 := |env.Block(p2, opt, NoTest, fl)|;
    TrueHasNoCode(env, p2, opt, fl);
    var end1 := pc + 1 + |b1|;
    CommitAllowsReuse(env, end1, 1 + n2, i, st);
    GenCorrect(env, pc + 1, p1, p2.TTrue?, Protection(f1.cs, f1.e), FULL, i, Back(end1 + 1, i, st), d);
    ChoiceEntered(env, pc, |b1|, n2, env.M(p1, i, d), i, st);
  }

  /** Around code that matches with outcome `o`: choice and commit take success past the second
      alternative and failure to its start. */
  lemma ChoiceEntered(env: Env, pc: nat, n1: nat, n2: nat, o: Outcome, i: nat, st: Stack)
    requires env.StepsKeepView() && i <= |env.s| && o != Diverge && (o.Ok? ==> o.j <= |env.s|)
    requires env.Is(pc, IChoice(2 + n1)) && env.Is(pc + 1 + n1, ICommit(1 + n2))
    requires env.E(Run(pc + 1, i, Back(pc + 2 + n1, i, st))) == env.After(o, pc + 1 + n1, Back(pc + 2 + n1, i, st))
    ensures env.E(Run(pc, i, st)) ==
            if o.Ok? then env.E(Run(pc + 2 + n1 + n2, o.j, st)) else env.E(Run(pc + 2 + n1, i, st))
  {
    env.DoChoice(pc, 2 + n1, i, st);
    if o.Ok? { env.DoCommit(pc + 1 + n1, 1 + n2, o.j, pc + 2 + n1, i, st); }
  }

  lemma OptUse(env: Env, end: int, st: Stack, j: nat)
    requires env.OptOk(end, st) && j <= |env.s|
    ensures env.E(Run(end, j, st)) == env.E(Run(st.pc, j, st.below))
  {
    assert st == Back(st.pc, st.pos, st.below);
  }

  /** Before a commit to where the choice leads, an optional pattern may reuse that choice. */
  lemma CommitAllowsReuse(env: Env, p: int, off: int, k: nat, st: Stack)
    requires env.StepsKeepView() && env.Is(p, ICommit(off))
    ensures env.OptOk(p, Back(p + off, k, st))
  {
    var target := p + off;
    forall j: nat, k': nat | j <= |env.s|
      ensures env.E(Run(p, j, Back(target, k', st))) == env.E(Run(target, j, st))
    {
      env.DoCommit(p, off, j, target, k', st);
    }
  }

  /** Repetition decided by one test before each round, with no backtrack entry. */
  lemma {:induction false} TestedRepCorrect(env: Env, base: nat, f: First, b: Tree, opt: bool, tt: Test, fl: Charset,
                                            i: nat, st: Stack, d: nat)
    requires env.Ready(base, TestedRep(f.cs, env.Block(b, false, Protection(f.cs, false), FULL)), TRep(b), opt, tt, fl,
                       i, st, d)
    requires f == GetFirst(env.rules, b, FULL, env.da) && !IsCharPattern(b) && RepByTest(env.rules, b, fl, env.da)
    ensures env.Agrees(base, TestedRep(f.cs, env.Block(b, false, Protection(f.cs, false), FULL)), TRep(b), i, st, d)
    decreases d, TRep(b), |env.s| - i, 1
  {
    hide Gen, At;
    var tt1 := Protection(f.cs, false);
    var g := env.Block(b, false, tt1, FULL);
    AtAround(env.code, base, [], TestInstr(f.cs, 2 + |g|), g, IJmp(-(1 + |g|)), [], env.starts);
    env.DoTest(base, f.cs, 2 + |g|, i, st);
    if HeadFail(env.rules, b, env.da) { HeadFailAllowsTest(env.rules, b, FULL, env.da); }
    var o := env.M(b, i, d);
    if Accepts(env.s, i, f.cs) {
      GenCorrect(env, base + 1, b, false, tt1, FULL, i, st, d);
      if o.Ok? {
        env.DoJmp(base + 1 + |g|, -(1 + |g|), o.j, st);
        TestedRepCorrect(env, base, f, b, opt, NoTest, fl, o.j, st, d);
      } else {
        if HeadFail(env.rules, b, env.da) { HeadFailExact(env.rules, b, env.s, i, d, env.da); }
        assert NextOutside(env.s, i, fl);
      }
    } else {
      RejectedFails(env, b, i, d);
    }
  }

  /** Repetition with a choice that is updated after each round. */
  lemma {:induction false} FullRepCorrect(env: Env, base: nat, f: First, b: Tree, opt: bool, tt: Test, fl: Charset,
                                          i: nat, st: Stack, d: nat)
    requires env.Ready(base, FullRep(f, opt, env.Block(b, false, NoTest, FULL)), TRep(b), opt, tt, fl, i, st, d)
    requires f == GetFirst(env.rules, b, FULL, env.da)
    ensures env.Agrees(base, FullRep(f, opt, env.Block(b, false, NoTest, FULL)), TRep(b), i, st, d)
    decreases d, TRep(b), |env.s| - i, 1
  {
    hide Gen, At;
    var g := env.Block(b, false, NoTest, FULL);
    var test := TestBlock(f.cs, f.e, 3 + |g|);
    var enter := if opt then IPartialCommit(1) else IChoice(2 + |g|);
    AtAround(env.code, base, test, enter, g, IPartialCommit(-|g|), [], env.starts);
    var pc := base + |test|;
    TestBlockStep(env, base, f, 3 + |g|, i, st);
    if f.e || Accepts(env.s, i, f.cs) {
      if opt {
        env.DoPartialCommit(pc, 1, i, st.pc, st.pos, st.below);
        RepLoop(env, pc + 1, b, st.pc, i, st.below, d);
        OptUse(env, pc + 2 + |g|, st, env.M(TRep(b), i, d).j);
      } else {
        env.DoChoice(pc, 2 + |g|, i, st);
        RepLoop(env, pc + 1, b, pc + 2 + |g|, i, st, d);
      }
    } else {
      RejectedFails(env, b, i, d);
    }
  }

  /** The loop of a repetition ends by failing to the choice, which holds the latest position. */
  lemma {:induction false} RepLoop(env: Env, base: nat, b: Tree, l: int, i: nat, below: Stack, d: nat)
    requires i <= |env.s| && env.Valid() && Wf(env.rules, b) && env.M(TRep(b), i, d) != Diverge
    requires env.Has(base, env.Block(b, false, NoTest, FULL))
    requires var n := |env.Block(b, false, NoTest, FULL)|;
             base + n < |env.code| && env.code[base + n] == IPartialCommit(-n)
    ensures env.M(TRep(b), i, d).Ok?
    ensures env.E(Run(base, i, Back(l, i, below))) == env.E(Run(l, env.M(TRep(b), i, d).j, below))
    decreases d, TRep(b), |env.s| - i, 0
  {
    hide Gen, At;
    var g := env.Block(b, false, NoTest, FULL);
    GenCorrect(env, base, b, false, NoTest, FULL, i, Back(l, i, below), d);
    var o := env.M(b, i, d);
    if o.Ok? {
      env.DoPartialCommit(base + |g|, -|g|, o.j, l, i, below);
      RepLoop(env, base, b, l, o.j, below, d);
    }
  }

  /** Negative look-ahead decided by one test. */
  lemma {:induction false} TestedNotCorrect(env: Env, base: nat, f: First, b: Tree, tt: Test, fl: Charset, i: nat,
                                            st: Stack, d: nat)
    requires HeadFail(env.rules, b, env.da) && f == GetFirst(env.rules, b, FULL, env.da)
    requires env.Ready(base, TestBlock(f.cs, f.e, 2) + [IFail], TNot(b), false, tt, fl, i, st, d)
    ensures env.Agrees(base, TestBlock(f.cs, f.e, 2) + [IFail], TNot(b), i, st, d)
  {
    hide Gen, At;
    HeadFailAllowsTest(env.rules, b, FULL, env.da);
    HeadFailIff(env.rules, b, env.s, i, d, env.da);
    AtSplit(env.code, base, TestBlock(f.cs, f.e, 2), [IFail], env.starts);
    TestBlockStep(env, base, f, 2, i, st);
    AtOne(env.code, base + 1, IFail, env.starts);
    env.DoFail(base + 1, i, st);
  }

  /** Negative look-ahead with a backtrack entry. */
  lemma {:induction false} FullNotCorrect(env: Env, base: nat, f: First, b: Tree, tt: Test, fl: Charset, i: nat,
                                          st: Stack, d: nat)
    requires f == GetFirst(env.rules, b, FULL, env.da)
    requires env.Ready(base, FullNot(f, env.Block(b, false, NoTest, FULL)), TNot(b), false, tt, fl, i, st, d)
    ensures env.Agrees(base, FullNot(f, env.Block(b, false, NoTest, FULL)), TNot(b), i, st, d)
    decreases d, TNot(b), |env.s| - i, 1
  {
    hide Gen, At;
    var g := env.Block(b, false, NoTest, FULL);
    var test := TestBlock(f.cs, f.e, 3 + |g|);
    AtAround(env.code, base, test, IChoice(2 + |g|), g, IFailTwice, [], env.starts);
    var pc := base + |test|;
    TestBlockStep(env, base, f, 3 + |g|, i, st);
    if f.e || Accepts(env.s, i, f.cs) {
      var o := env.M(b, i, d);
      env.DoChoice(pc, 2 + |g|, i, st);
      GenCorrect(env, pc + 1, b, false, NoTest, FULL, i, Back(pc + 2 + |g|, i, st), d);
      if o.Ok? { env.DoFailTwice(pc + 1 + |g|, o.j, pc + 2 + |g|, i, st); }
    } else {
      RejectedFails(env, b, i, d);
    }
  }

  /** Positive look-ahead that goes back a fixed length. */
  lemma {:induction false} AndByLengthCorrect(env: Env, base: nat, b: Tree, n: nat, opt: bool, tt: Test, fl: Charset,
                                              i: nat, st: Stack, d: nat)
    requires FixedLen(env.rules, b, env.da) == Some(n)
    requires env.Ready(base, env.Block(b, false, tt, FULL) + (if n > 0 then [IBehind(n)] else []), TAnd(b), opt, tt, fl,
                       i, st, d)
    ensures env.Agrees(base, env.Block(b, false, tt, FULL) + (if n > 0 then [IBehind(n)] else []), TAnd(b), i, st, d)
    decreases d, TAnd(b), |env.s| - i, 0
  {
    hide Gen, At;
    var g := env.Block(b, false, tt, FULL);
    var back := if n > 0 then [IBehind(n)] else [];
    AtSplit(env.code, base, g, back, env.starts);
    GenCorrect(env, base, b, false, tt, FULL, i, st, d);
    FixedLenExact(env.rules, b, env.s, i, d, env.da);
    var o := env.M(b, i, d);
    if o.Ok? && n > 0 {
      AtOne(env.code, base + |g|, IBehind(n), env.starts);
      env.DoBehind(base + |g|, n, o.j, st);
    }
  }

  /** Positive look-ahead that goes back to a saved position. */
  lemma {:induction false} FullAndCorrect(env: Env, base: nat, b: Tree, opt: bool, tt: Test, fl: Charset, i: nat,
                                          st: Stack, d: nat)
    requires env.Ready(base, FullAnd(env.Block(b, false, tt, FULL)), TAnd(b), opt, tt, fl, i, st, d)
    ensures env.Agrees(base, FullAnd(env.Block(b, false, tt, FULL)), TAnd(b), i, st, d)
    decreases d, TAnd(b), |env.s| - i, 0
  {
    hide Gen, At;
    var g := env.Block(b, false, tt, FULL);
    var o := env.M(b, i, d);
    AtAround(env.code, base, [], IChoice(2 + |g|), g, IBackCommit(2), [IFail], env.starts);
    AtOne(env.code, base + 2 + |g|, IFail, env.starts);
    env.DoChoice(base, 2 + |g|, i, st);
    var st' := Back(base + 2 + |g|, i, st);
    GenCorrect(env, base + 1, b, false, tt, FULL, i, st', d);
    if o.Ok? {
      env.DoBackCommit(base + 1 + |g|, 2, o.j, base + 2 + |g|, i, st);
    } else {
      env.DoFail(base + 2 + |g|, i, st);
    }
  }

  lemma {:induction false} AndCorrect(env: Env, base: nat, b: Tree, opt: bool, tt: Test, fl: Charset, i: nat, st: Stack,
                                      d: nat)
    requires env.Ready(base, env.Block(TAnd(b), opt, tt, fl), TAnd(b), opt, tt, fl, i, st, d)
    ensures env.Agrees(base, env.Block(TAnd(b), opt, tt, fl), TAnd(b), i, st, d)
    decreases d, TAnd(b), |env.s| - i, 1
  {
    AndCode(env, b, opt, tt, fl);
    hide Gen, At, FullAnd;
    if AndByLength(env.rules, b, env.da) {
      AndByLengthCorrect(env, base, b, FixedLen(env.rules, b, env.da).value, opt, tt, fl, i, st, d);
    } else {
      FullAndCorrect(env, base, b, opt, tt, fl, i, st, d);
    }
  }

  lemma AndCode(env: Env, b: Tree, opt: bool, tt: Test, fl: Charset)
    ensures env.Block(TAnd(b), opt, tt, fl) ==
            if AndByLength(env.rules, b, env.da)
            then env.Block(b, false, tt, FULL) + (if FixedLen(env.rules, b, env.da).value > 0
                                                  then [IBehind(FixedLen(env.rules, b, env.da).value)] else [])
            else FullAnd(env.Block(b, false, tt, FULL))
  {
  }

  /** Look-behind. */
  lemma {:induction false} BehindCorrect(env: Env, base: nat, b: Tree, n: nat, opt: bool, tt: Test, fl: Charset, i: nat,
                                         st: Stack, d: nat)
    requires env.Ready(base, (if n > 0 then [IBehind(n)] else []) + env.Block(b, false, NoTest, FULL), TBehind(b, n),
                       opt, tt, fl, i, st, d)
    ensures env.Agrees(base, (if n > 0 then [IBehind(n)] else []) + env.Block(b, false, NoTest, FULL), TBehind(b, n), i,
                       st, d)
    decreases d, TBehind(b, n), |env.s| - i, 1
  {
    hide Gen, At;
    var g := env.Block(b, false, NoTest, FULL);
    var back := if n > 0 then [IBehind(n)] else [];
    AtSplit(env.code, base, back, g, env.starts);
    if n > 0 {
      AtOne(env.code, base, IBehind(n), env.starts);
      env.DoBehind(base, n, i, st);
    }
    if n <= i {
      var da :| FixedLen(env.rules, b, da) == Some(n);
      FixedLenExact(env.rules, b, env.s, i - n, d, da);
      GenCorrect(env, base + |back|, b, false, NoTest, FULL, i - n, st, d);
    }
  }

  /** A call, or a jump in place of a call followed by a return. */
  lemma {:induction false} CallCorrect(env: Env, base: nat, r: nat, opt: bool, tt: Test, fl: Charset, i: nat, st: Stack,
                                       d: nat)
    requires env.Ready(base, [IOpenCall(r)], TCall(r), opt, tt, fl, i, st, d)
    ensures env.Agrees(base, [IOpenCall(r)], TCall(r), i, st, d)
    decreases d, TCall(r), |env.s| - i, 1
  {
    hide Gen;
    var g := env.Block(env.rules[r], false, NoTest, FULL);
    var start := env.starts[r];
    assert [IOpenCall(r)][0] == IOpenCall(r);
    assert Fits(env.code, base + 0, [IOpenCall(r)][0], env.starts);
    assert env.RuleAt(r);
    AtSplit(env.code, start, g, [IRet], env.starts);
    AtOne(env.code, start + |g|, IRet, env.starts);
    var o := env.M(env.rules[r], i, d - 1);
    if env.code[base] == ICall(start - base) {
      env.DoCall(base, start - base, i, st);
      var st' := Return(base + 1, st);
      GenCorrect(env, start, env.rules[r], false, NoTest, FULL, i, st', d - 1);
      if o.Ok? { env.DoRet(start + |g|, base + 1, o.j, st); }
    } else {
      env.DoJmp(base, start - base, i, st);
      GenCorrect(env, start, env.rules[r], false, NoTest, FULL, i, st, d - 1);
      if o.Ok? {
        var n: nat :| ReachesRet(env.code, base + 1, n);
        RetByJumps(env, base + 1, start + |g|, n, o.j, st);
      }
    }
  }

  /** Grammars ignore the context of code generation. */
  lemma GrammarBlock(env: Env, g: Tree, opt: bool, tt: Test, fl: Charset)
    requires g.TGrammar?
    ensures env.Block(g, opt, tt, fl) == env.Block(g, false, NoTest, FULL)
  {
  }

  /** The corrected code of a grammar sits unchanged in the program. */
  lemma GrammarPlaced(env: Env, base: nat, g: Tree)
    requires g.TGrammar? && Wf(env.rules, g) && env.Has(base, env.Block(g, false, NoTest, FULL))
    ensures var block := env.Block(g, false, NoTest, FULL);
            base + |block| <= |env.code| && forall k :: 0 <= k < |block| ==> env.code[base + k] == block[k]
    ensures |env.Block(g, false, NoTest, FULL)| == 2 + |RuleCodes(g, |g.rules|, env.da)|
    ensures env.Is(base, ICall(2)) && env.Is(base + 1, IJmp(1 + |RuleCodes(g, |g.rules|, env.da)|))
  {
    var block := env.Block(g, false, NoTest, FULL);
    GrammarClosed(g, env.da);
    CorrectCallsSpec(RawGrammar(g, env.da), 2, 2, RuleStarts(g, env.da));
    forall k | 0 <= k < |block| ensures env.code[base + k] == block[k] {
      assert Fits(env.code, base + k, block[k], env.starts);
    }
    assert env.code[base + 0] == block[0] && env.code[base + 1] == block[1];
  }

  function Shifted(base: nat, rel: seq<nat>): (r: seq<nat>)
    ensures |r| == |rel| && forall k :: 0 <= k < |rel| ==> r[k] == base + rel[k]
  {
    seq(|rel|, k requires 0 <= k < |rel| => base + rel[k])
  }

  /** Each rule of a placed grammar is where its calls go. */
  lemma GrammarValid(env: Env, base: nat, g: Tree)
    requires env.Valid() && g.TGrammar? && Wf(env.rules, g) && env.Has(base, env.Block(g, false, NoTest, FULL))
    ensures env.(rules := g.rules, starts := Shifted(base, RuleStarts(g, env.da))).Valid()
  {
    var inner := env.(rules := g.rules, starts := Shifted(base, RuleStarts(g, env.da)));
    forall k | 0 <= k < |g.rules| ensures inner.RuleAt(k) {
      RulePlaced(env, base, g, inner.starts, k);
    }
  }

  lemma RulePlaced(env: Env, base: nat, g: Tree, starts: seq<nat>, k: nat)
    requires g.TGrammar? && Wf(env.rules, g) && env.Has(base, env.Block(g, false, NoTest, FULL))
    requires |starts| == |g.rules| && forall k :: 0 <= k < |starts| ==> starts[k] == base + RuleStarts(g, env.da)[k]
    requires k < |g.rules|
    ensures At(env.code, starts[k], Gen(g.rules, g.rules[k], false, NoTest, FULL, env.da) + [IRet], starts)
  {
    var da := env.da;
    var raw, rel := RawGrammar(g, da), RuleStarts(g, da);
    var rule := Gen(g.rules, g.rules[k], false, NoTest, FULL, da) + [IRet];
    GrammarPlaced(env, base, g);
    GenClosed(g.rules, g.rules[k], false, NoTest, FULL, da);
    ClosedConcat(Gen(g.rules, g.rules[k], false, NoTest, FULL, da), [IRet], |g.rules|);
    RuleInRaw(g, k, |rule| - 1, da);
    forall q | 0 <= q < |rule| ensures raw[rel[k] + q] == rule[q] {
      RuleInRaw(g, k, q, da);
    }
    BlockPlaced(env.code, base, raw, rel, rel[k], rule, starts);
  }

  /** A part of a grammar's raw code whose calls can be corrected is placed where the corrected code is. */
  lemma BlockPlaced(code: seq<Instr>, base: nat, raw: seq<Instr>, rel: seq<nat>, at: nat, part: seq<Instr>,
                    starts: seq<nat>)
    requires 2 <= |raw| && base + |raw| <= |code|
    requires forall k :: 0 <= k < |raw| ==> code[base + k] == CorrectCalls(raw, 2, 2, rel)[k]
    requires |starts| == |rel| && forall k :: 0 <= k < |rel| ==> starts[k] == base + rel[k]
    requires Closed(part, |rel|) && 2 <= at
    requires at + |part| <= |raw| && forall q :: 0 <= q < |part| ==> raw[at + q] == part[q]
    ensures At(code, base + at, part, starts)
  {
    CorrectCallsSpec(raw, 2, 2, rel);
    var block := CorrectCalls(raw, 2, 2, rel);
    forall q | 0 <= q < |part| ensures Fits(code, base + at + q, part[q], starts) {
      assert code[base + (at + q)] == block[at + q];
      if part[q].IOpenCall? {
        CallPlaced(code, base, block, at + q, rel[part[q].key]);
      }
    }
  }

  lemma CallPlaced(code: seq<Instr>, base: nat, block: seq<Instr>, p: nat, target: int)
    requires base + |block| <= |code| && p < |block|
    requires forall k :: 0 <= k < |block| ==> code[base + k] == block[k]
    requires IsCallOf(block, p, target)
    ensures IsCallOf(code, base + p, base + target)
  {
    if block[p].IJmp? {
      var n: nat :| ReachesRet(block, p + 1, n);
      ChainPlaced(code, base, block, p + 1, n);
      assert LeadsToRet(code, base + p + 1);
    }
  }

  /** The code of rule `k` inside the code of the whole grammar. */
  lemma RuleInRaw(g: Tree, k: nat, q: nat, da: nat)
    requires g.TGrammar? && k < |g.rules|
    requires q < |Gen(g.rules, g.rules[k], false, NoTest, FULL, da)| + 1
    ensures var p := RuleStarts(g, da)[k] + q;
            2 <= p < |RawGrammar(g, da)| &&
            RawGrammar(g, da)[p] == (Gen(g.rules, g.rules[k], false, NoTest, FULL, da) + [IRet])[q]
  {
    hide Gen;
    RuleCodesPrefix(g, k + 1, |g.rules|, da);
    var all := RuleCodes(g, |g.rules|, da);
    var upto := RuleCodes(g, k + 1, da);
    var m := |RuleCodes(g, k, da)| + q;
    assert upto == RuleCodes(g, k, da) + Gen(g.rules, g.rules[k], false, NoTest, FULL, da) + [IRet];
    assert all[m] == upto[m];
    assert RawGrammar(g, da)[2 + m] == all[m];
  }

  lemma FirstStart(g: Tree, da: nat)
    requires g.TGrammar? && g.rules != []
    ensures RuleStarts(g, da)[0] == 2
  {
    assert RuleCodes(g, 0, da) == [];
  }

  /** Where a grammar is entered and left, and where its first rule is. */
  lemma FirstPlaced(env: Env, base: nat, rs: seq<Tree>, inner: Env)
    requires env.Valid() && Wf(env.rules, TGrammar(rs)) && env.Has(base, env.Block(TGrammar(rs), false, NoTest, FULL))
    requires inner == env.(rules := rs, starts := Shifted(base, RuleStarts(TGrammar(rs), env.da)))
    ensures inner.Valid() && rs != []
    ensures var g0, after := inner.Block(rs[0], false, NoTest, FULL), 1 + |RuleCodes(TGrammar(rs), |rs|, env.da)|;
            inner.Has(base + 2, g0) && inner.Is(base + 2 + |g0|, IRet) &&
            env.Is(base, ICall(2)) && env.Is(base + 1, IJmp(after)) &&
            base + 1 + after == base + |env.Block(TGrammar(rs), false, NoTest, FULL)|
  {
    hide Gen, At, RuleCodes, RuleStarts;
    var g := TGrammar(rs);
    GrammarPlaced(env, base, g);
    GrammarValid(env, base, g);
    var g0 := inner.Block(rs[0], false, NoTest, FULL);
    assert inner.RuleAt(0);
    FirstStart(g, env.da);
    AtSplit(env.code, base + 2, g0, [IRet], inner.starts);
    AtOne(env.code, base + 2 + |g0|, IRet, inner.starts);
  }

  /** A grammar: its first rule, with the calls of all rules corrected. */
  lemma {:induction false} GrammarCorrect(env: Env, base: nat, rs: seq<Tree>, opt: bool, tt: Test, fl: Charset, i: nat,
                                          st: Stack, d: nat)
    requires env.Ready(base, env.Block(TGrammar(rs), opt, tt, fl), TGrammar(rs), opt, tt, fl, i, st, d)
    ensures env.Agrees(base, env.Block(TGrammar(rs), opt, tt, fl), TGrammar(rs), i, st, d)
    decreases d, TGrammar(rs), |env.s| - i, 1
  {
    hide Gen, At, RuleCodes, Shifted;
    GrammarBlock(env, TGrammar(rs), opt, tt, fl);
    var inner := env.(rules := rs, starts := Shifted(base, RuleStarts(TGrammar(rs), env.da)));
    FirstPlaced(env, base, rs, inner);
    env.DoCall(base, 2, i, st);
    GenCorrect(inner, base + 2, rs[0], false, NoTest, FULL, i, Return(base + 1, st), d);
    var o := inner.M(rs[0], i, d);
    if o.Ok? {
      env.DoRet(base + 2 + |inner.Block(rs[0], false, NoTest, FULL)|, base + 1, o.j, st);
      env.DoJmp(base + 1, 1 + |RuleCodes(TGrammar(rs), |rs|, env.da)|, o.j, st);
    }
  }
}
