/** The compiler with its growing code (`CompileState` in `lpcode.c`): instructions are added at
    the end and their labels patched when the targets are known. */
module PegCompiler {
  import opened Wrappers
  import opened PegTree
  import opened PegAnalysis
  import opened PegMachine
  import opened PegCode
  import opened PegPlacement
  import opened PegClosed
  import opened PegCorrect
  import opened PegPeephole

  const NOINST := -1

  /** What instruction `tt` protects the code after it from. */
  function TestAt(code: seq<Instr>, tt: int): Test
    requires NOINST <= tt < |code|
  {
    if tt < 0 then NoTest else TestOf(code[tt])
  }

  lemma TestRelabelled(cs: Charset, off: int)
    ensures HasLabel(TestInstr(cs, 0)) && WithLabel(TestInstr(cs, 0), off) == TestInstr(cs, off)
    ensures TestOf(TestInstr(cs, off)) == TestOf(TestInstr(cs, 0))
  {
  }

  // ----- patching code that has the shape of `Around` -----

  lemma Laid(before: seq<Instr>, a: seq<Instr>, x: Instr, b: seq<Instr>, y: Instr)
    ensures before + a + [x] + b + [y] == before + Around(a, x, b, y, [])
  {
  }

  lemma Appended(before: seq<Instr>, a: seq<Instr>, x: Instr, b: seq<Instr>, y: Instr, c: seq<Instr>)
    ensures before + Around(a, x, b, y, []) + c == before + Around(a, x, b, y, c)
  {
  }

  lemma PatchFirst(before: seq<Instr>, a: seq<Instr>, x: Instr, b: seq<Instr>, y: Instr, c: seq<Instr>, x': Instr)
    ensures var code := before + Around(a, x, b, y, c);
            code[|before + a|] == x && code[|before + a| := x'] == before + Around(a, x', b, y, c)
  {
    var code, code' := before + Around(a, x, b, y, c), before + Around(a, x', b, y, c);
    assert forall k :: 0 <= k < |code| && k != |before + a| ==> code[k] == code'[k];
  }

  lemma PatchSecond(before: seq<Instr>, a: seq<Instr>, x: Instr, b: seq<Instr>, y: Instr, c: seq<Instr>, y': Instr)
    ensures var code := before + Around(a, x, b, y, c);
            var p := |before + a| + 1 + |b|;
            code[p] == y && code[p := y'] == before + Around(a, x, b, y', c)
  {
    var code, code' := before + Around(a, x, b, y, c), before + Around(a, x, b, y', c);
    assert forall k :: 0 <= k < |code| && k != |before + a| + 1 + |b| ==> code[k] == code'[k];
  }

  lemma PatchFront(before: seq<Instr>, t: Instr, x: Instr, b: seq<Instr>, y: Instr, c: seq<Instr>, t': Instr)
    ensures var code := before + Around([t], x, b, y, c);
            code[|before|] == t && code[|before| := t'] == before + Around([t'], x, b, y, c)
  {
    var code, code' := before + Around([t], x, b, y, c), before + Around([t'], x, b, y, c);
    assert forall k :: 0 <= k < |code| && k != |before| ==> code[k] == code'[k];
  }

  /** The code after a test that lacks its target is completed and the target patched. */
  ghost function TestPatched(code: seq<Instr>, f: First, test: nat): seq<Instr>
    requires !f.e ==> test < |code| && HasLabel(code[test])
  {
    if f.e then code else code[test := WithLabel(code[test], |code| - test)]
  }

  lemma PatchTest(before: seq<Instr>, f: First, x: Instr, b: seq<Instr>, y: Instr)
    ensures var code := before + Around(TestBlock(f.cs, f.e, 0), x, b, y, []);
            (!f.e ==> code[|before|] == TestInstr(f.cs, 0)) && HasLabel(TestInstr(f.cs, 0)) &&
            TestPatched(code, f, |before|) == before + Around(TestBlock(f.cs, f.e, 3 + |b|), x, b, y, [])
  {
    TestRelabelled(f.cs, 3 + |b|);
    if !f.e { PatchFront(before, TestInstr(f.cs, 0), x, b, y, [], TestInstr(f.cs, 3 + |b|)); }
  }

  lemma TestedFirstBuilt(before: seq<Instr>, cs: Charset, b1: seq<Instr>, emptyp2: bool)
    ensures HasLabel(TestInstr(cs, 0))
    ensures var c2 := before + [TestInstr(cs, 0)] + b1 + (if emptyp2 then [] else [IJmp(0)]);
            c2[|before|] == TestInstr(cs, 0) &&
            c2[|before| := WithLabel(TestInstr(cs, 0), |c2| - |before|)] ==
            before + [TestInstr(cs, if emptyp2 then 1 + |b1| else 2 + |b1|)] + b1 + (if emptyp2 then [] else [IJmp(0)])
  {
    TestRelabelled(cs, if emptyp2 then 1 + |b1| else 2 + |b1|);
  }

  lemma TestedChoiceBuilt(before: seq<Instr>, cs: Charset, b1: seq<Instr>, emptyp2: bool, b2: seq<Instr>)
    ensures var first := before + [TestInstr(cs, if emptyp2 then 1 + |b1| else 2 + |b1|)] + b1 +
            (if emptyp2 then [] else [IJmp(0)]);
            var all := first + b2;
            (emptyp2 ==> all == before + TestedChoice(cs, b1, true, b2)) &&
            (!emptyp2 ==> all[|first| - 1] == IJmp(0) &&
                          all[|first| - 1 := IJmp(|all| - (|first| - 1))] == before + TestedChoice(cs, b1, false, b2))
  {
  }

  lemma FirstAlternativeBuilt(before: seq<Instr>, f: First, b1: seq<Instr>)
    ensures var pchoice := |before + TestBlock(f.cs, f.e, 0)|;
            var c1 := before + TestBlock(f.cs, f.e, 0) + [IChoice(0)] + b1 + [ICommit(0)];
            var c2 := c1[pchoice := IChoice(|c1| - pchoice)];
            c1[pchoice] == IChoice(0) && (!f.e ==> c2[|before|] == TestInstr(f.cs, 0) && HasLabel(c2[|before|])) &&
            TestPatched(c2, f, |before|) ==
            before + Around(TestBlock(f.cs, f.e, 3 + |b1|), IChoice(2 + |b1|), b1, ICommit(0), [])
  {
    var t0 := TestBlock(f.cs, f.e, 0);
    Laid(before, t0, IChoice(0), b1, ICommit(0));
    PatchFirst(before, t0, IChoice(0), b1, ICommit(0), [], IChoice(2 + |b1|));
    PatchTest(before, f, IChoice(2 + |b1|), b1, ICommit(0));
  }

  lemma TestedRepBuilt(before: seq<Instr>, cs: Charset, g: seq<Instr>)
    ensures var test := |before|;
            var c1 := before + [TestInstr(cs, 0)] + g + [IJmp(0)];
            c1[test] == TestInstr(cs, 0) && HasLabel(c1[test]) &&
            var c2 := c1[test := WithLabel(TestInstr(cs, 0), |c1| - test)];
            c2[|c1| - 1] == IJmp(0) && c2[|c1| - 1 := IJmp(test - (|c1| - 1))] == before + TestedRep(cs, g)
  {
    var test := TestInstr(cs, 2 + |g|);
    TestRelabelled(cs, 2 + |g|);
    Laid(before, [], TestInstr(cs, 0), g, IJmp(0));
    assert before + [] == before;
    PatchFirst(before, [], TestInstr(cs, 0), g, IJmp(0), [], test);
    PatchSecond(before, [], test, g, IJmp(0), [], IJmp(-(1 + |g|)));
  }

  lemma FullRepBuilt(before: seq<Instr>, f: First, opt: bool, g: seq<Instr>)
    ensures var pchoice := |before + TestBlock(f.cs, f.e, 0)|;
            var c1 := before + TestBlock(f.cs, f.e, 0) + [if opt then IPartialCommit(1) else IChoice(0)] + g +
                [IPartialCommit(-|g|)];
            var c2 := if opt then c1 else c1[pchoice := IChoice(|c1| - pchoice)];
            (!opt ==> c1[pchoice] == IChoice(0)) &&
                (!f.e ==> c2[|before|] == TestInstr(f.cs, 0) && HasLabel(c2[|before|])) &&
            TestPatched(c2, f, |before|) == before + FullRep(f, opt, g)
  {
    var t0 := TestBlock(f.cs, f.e, 0);
    var enter := if opt then IPartialCommit(1) else IChoice(2 + |g|);
    Laid(before, t0, if opt then IPartialCommit(1) else IChoice(0), g, IPartialCommit(-|g|));
    if !opt { PatchFirst(before, t0, IChoice(0), g, IPartialCommit(-|g|), [], enter); }
    PatchTest(before, f, enter, g, IPartialCommit(-|g|));
  }

  lemma FullNotBuilt(before: seq<Instr>, f: First, g: seq<Instr>)
    ensures var pchoice := |before + TestBlock(f.cs, f.e, 0)|;
            var c1 := before + TestBlock(f.cs, f.e, 0) + [IChoice(0)] + g + [IFailTwice];
            var c2 := c1[pchoice := IChoice(|c1| - pchoice)];
            c1[pchoice] == IChoice(0) && (!f.e ==> c2[|before|] == TestInstr(f.cs, 0) && HasLabel(c2[|before|])) &&
            TestPatched(c2, f, |before|) == before + FullNot(f, g)
  {
    var t0 := TestBlock(f.cs, f.e, 0);
    Laid(before, t0, IChoice(0), g, IFailTwice);
    PatchFirst(before, t0, IChoice(0), g, IFailTwice, [], IChoice(2 + |g|));
    PatchTest(before, f, IChoice(2 + |g|), g, IFailTwice);
  }

  lemma FullAndBuilt(before: seq<Instr>, g: seq<Instr>)
    ensures var pchoice := |before|;
            var c1 := before + [IChoice(0)] + g + [IBackCommit(0)];
            var c2 := c1[pchoice := IChoice(|c1| - pchoice)] + [IFail];
            c1[pchoice] == IChoice(0) && c2[|c1| - 1] == IBackCommit(0) &&
            c2[|c1| - 1 := IBackCommit(|c2| - (|c1| - 1))] == before + FullAnd(g)
  {
    var enter := IChoice(2 + |g|);
    Laid(before, [], IChoice(0), g, IBackCommit(0));
    assert before + [] == before;
    PatchFirst(before, [], IChoice(0), g, IBackCommit(0), [], enter);
    Appended(before, [], enter, g, IBackCommit(0), [IFail]);
    PatchSecond(before, [], enter, g, IBackCommit(0), [IFail], IBackCommit(2));
  }

  lemma RawLaid(before: seq<Instr>, g: Tree, da: nat)
    requires g.TGrammar?
    ensures var body := RuleCodes(g, |g.rules|, da);
            var code := before + [ICall(2), IJmp(0)] + body;
            code[|before| + 1] == IJmp(0) && code[|before| + 1 := IJmp(1 + |body|)] == before + RawGrammar(g, da)
  {
  }

  lemma NoRulesNoCode(g: Tree, da: nat)
    requires g.TGrammar?
    ensures RuleCodes(g, 0, da) == []
  {
  }

  lemma GrammarGen(g: Tree, da: nat)
    requires g.TGrammar?
    ensures Gen([], g, false, NoTest, FULL, da) == CorrectCalls(RawGrammar(g, da), 2, 2, RuleStarts(g, da))
  {
  }


  class CompileState {
    var code: seq<Instr>

    constructor ()
      ensures code == []
    {
      code := [];
    }

    method AddInstruction(ins: Instr) returns (i: nat)
      modifies this
      ensures i == |old(code)| && code == old(code) + [ins]
    {
      i := |code|;
      code := code + [ins];
    }

    /** `jumptothere`: give `instruction`, if there is one, the target `target`. */
    method JumpToThere(instruction: int, target: int)
      requires NOINST <= instruction < |code|
      requires instruction >= 0 ==> HasLabel(code[instruction])
      modifies this
      ensures code == if instruction < 0 then old(code)
                      else old(code)[instruction := WithLabel(old(code)[instruction], target - instruction)]
    {
      if instruction >= 0 {
        code := code[instruction := WithLabel(code[instruction], target - instruction)];
      }
    }

    method JumpToHere(instruction: int)
      requires NOINST <= instruction < |code|
      requires instruction >= 0 ==> HasLabel(code[instruction])
      modifies this
      ensures code == if instruction < 0 then old(code)
                      else old(code)[instruction := WithLabel(old(code)[instruction], |old(code)| - instruction)]
    {
      JumpToThere(instruction, |code|);
    }

    method CodeCharInstr(c: Byte, tt: int)
      requires NOINST <= tt < |code|
      modifies this
      ensures code == old(code) + CodeChar(c, TestAt(old(code), tt))
    {
      if tt >= 0 && code[tt].ITestChar? && code[tt].tc == c {
        var _ := AddInstruction(IAny);
      } else {
        var _ := AddInstruction(IChar(c));
      }
    }

    method CodeSetInstr(cs: Charset, tt: int)
      requires NOINST <= tt < |code|
      modifies this
      ensures code == old(code) + CodeCharset(cs, TestAt(old(code), tt))
    {
      match CharsetType(cs)
      case OneChar(c) => CodeCharInstr(c, tt);
      case OtherSet =>
        if tt >= 0 && code[tt].ITestSet? && code[tt].tcs == cs {
          var _ := AddInstruction(IAny);
        } else {
          var _ := AddInstruction(ISet(cs));
        }
      case FullSet => var _ := AddInstruction(IAny);
      case EmptySet => var _ := AddInstruction(IFail);
    }

    /** `codetestset`: add a test that still lacks its target, unless `e` forbids tests. */
    method CodeTestSet(cs: Charset, e: bool) returns (test: int)
      modifies this
      ensures code == old(code) + TestBlock(cs, e, 0)
      ensures test == if e then NOINST else |old(code)|
    {
      if e {
        test := NOINST;
      } else {
        match CharsetType(cs)
        case EmptySet => test := AddInstruction(IJmp(0));
        case FullSet => test := AddInstruction(ITestAny(0));
        case OneChar(c) => test := AddInstruction(ITestChar(c, 0));
        case OtherSet => test := AddInstruction(ITestSet(cs, 0));
      }
    }

    /** `codegen` appends the code of the tree. */
    method CodeGen(rules: seq<Tree>, t: Tree, opt: bool, tt: int, fl: Charset, da: nat)
      requires Wf(rules, t)
      requires NOINST <= tt < |code|
      modifies this
      ensures code == old(code) + Gen(rules, t, opt, TestAt(old(code), tt), fl, da)
      decreases t, 3
    {
      match t
      case TChar(c) => CodeCharInstr(c, tt);
      case TAny => var _ := AddInstruction(IAny);
      case TSet(cs) => CodeSetInstr(cs, tt);
      case TTrue =>
      case TFalse => var _ := AddInstruction(IFail);
      case TChoice(p1, p2) => CodeChoice(rules, p1, p2, opt, TestAt(code, tt), fl, da);
      case TRep(b) => CodeRep(rules, b, opt, TestAt(code, tt), fl, da);
      case TBehind(b, n) => CodeBehind(rules, b, n, da);
      case TNot(b) => CodeNot(rules, b, opt, TestAt(code, tt), fl, da);
      case TAnd(b) => CodeAnd(rules, b, tt, opt, fl, da);
      case TGrammar(rs) => CodeGrammar(t, da);
      case TCall(r) => var _ := AddInstruction(IOpenCall(r));
      case TSeq(p1, p2) => CodeSeq(rules, p1, p2, opt, tt, fl, da);
    }

    method CodeBehind(rules: seq<Tree>, b: Tree, n: nat, da: nat)
      requires Wf(rules, b)
      modifies this
      ensures code == old(code) + ((if n > 0 then [IBehind(n)] else []) + Gen(rules, b, false, NoTest, FULL, da))
      decreases TBehind(b, n), 2
    {
      hide Gen;
      if n > 0 { var _ := AddInstruction(IBehind(n)); }
      CodeGen(rules, b, false, NOINST, FULL, da);
    }

    method CodeSeq(rules: seq<Tree>, p1: Tree, p2: Tree, opt: bool, tt: int, fl: Charset, da: nat)
      requires Wf(rules, p1) && Wf(rules, p2)
      requires NOINST <= tt < |code|
      modifies this
      ensures code == old(code) + (Gen(rules, p1, false, TestAt(old(code), tt), SeqFollow(rules, p1, p2, fl, da), da) +
                                   Gen(rules, p2, opt, SeqTest(rules, p1, TestAt(old(code), tt), da), fl, da))
      decreases TSeq(p1, p2), 2
    {
      hide Gen;
      var tt2 := CodeSeq1(rules, p1, p2, tt, fl, da);
      CodeGen(rules, p2, opt, tt2, fl, da);
    }

    /** `codeseq1` codes the first part and returns the test that still protects the second. */
    method CodeSeq1(rules: seq<Tree>, p1: Tree, p2: Tree, tt: int, fl: Charset, da: nat) returns (tt2: int)
      requires Wf(rules, p1)
      requires NOINST <= tt < |code|
      modifies this
      ensures code == old(code) + Gen(rules, p1, false, TestAt(old(code), tt), SeqFollow(rules, p1, p2, fl, da), da)
      ensures NOINST <= tt2 < |code| && TestAt(code, tt2) == SeqTest(rules, p1, TestAt(old(code), tt), da)
      decreases TSeq(p1, p2), 1
    {
      hide Gen;
      if NeedFollow(p1) {
        CodeGen(rules, p1, false, tt, GetFirst(rules, p2, fl, da).cs, da);
      } else {
        CodeGen(rules, p1, false, tt, FULL, da);
      }
      tt2 := if FixedLen(rules, p1, da) != Some(0) then NOINST else tt;
    }

    /** test -> L1; p1; jmp; L1: with the jump, if the choice has one, still lacking its target */
    method CodeTestedFirst(rules: seq<Tree>, p1: Tree, emptyp2: bool, f1: First, fl: Charset, da: nat)
        returns (jmp: int)
      requires Wf(rules, p1)
      modifies this
      ensures var b1 := Gen(rules, p1, false, Protection(f1.cs, false), fl, da);
              code == old(code) + [TestInstr(f1.cs, if emptyp2 then 1 + |b1| else 2 + |b1|)] + b1 +
                  (if emptyp2 then [] else [IJmp(0)])
      ensures jmp == if emptyp2 then NOINST else |code| - 1
      decreases p1, 5
    {
      hide Gen, TestInstr, TestOf, CharsetType;
      ghost var before := code;
      TestRelabelled(f1.cs, 0);
      var test := CodeTestSet(f1.cs, false);
      CodeGen(rules, p1, false, test, fl, da);
      ghost var b1 := Gen(rules, p1, false, Protection(f1.cs, false), fl, da);
      TestedFirstBuilt(before, f1.cs, b1, emptyp2);
      jmp := NOINST;
      if !emptyp2 { jmp := AddInstruction(IJmp(0)); }
      JumpToHere(test);
    }

    /** test -> L1; p1; jmp L2; L1: p2; L2: */
    method CodeTestedChoice(rules: seq<Tree>, p1: Tree, p2: Tree, opt: bool, f1: First, fl: Charset, da: nat)
      requires Wf(rules, p1) && Wf(rules, p2)
      modifies this
      ensures code == old(code) + TestedChoice(f1.cs, Gen(rules, p1, false, Protection(f1.cs, false), fl, da),
                                               p2.TTrue?,
                                               Gen(rules, p2, opt, NoTest, fl, da))
      decreases TChoice(p1, p2), 1
    {
      hide Gen, TestInstr, TestedChoice, TestOf, CharsetType;
      ghost var before := code;
      var jmp := CodeTestedFirst(rules, p1, p2.TTrue?, f1, fl, da);
      CodeGen(rules, p2, opt, NOINST, fl, da);
      TestedChoiceBuilt(before, f1.cs, Gen(rules, p1, false, Protection(f1.cs, false), fl, da), p2.TTrue?,
                        Gen(rules, p2, opt, NoTest, fl, da));
      JumpToHere(jmp);
    }

    /** test -> L1; choice L1; p1; commit; L1: with the commit still lacking its target */
    method CodeFirstAlternative(rules: seq<Tree>, p1: Tree, last: bool, f1: First, da: nat) returns (pcommit: int)
      requires Wf(rules, p1)
      modifies this
      ensures var b1 := Gen(rules, p1, last, Protection(f1.cs, f1.e), FULL, da);
              code == old(code) + Around(TestBlock(f1.cs, f1.e, 3 + |b1|), IChoice(2 + |b1|), b1, ICommit(0), []) &&
              pcommit == |code| - 1
      decreases p1, 4
    {
      hide Gen;
      ghost var before := code;
      TestRelabelled(f1.cs, 0);
      var test := CodeTestSet(f1.cs, f1.e);
      var pchoice := AddInstruction(IChoice(0));
      CodeGen(rules, p1, last, test, FULL, da);
      pcommit := AddInstruction(ICommit(0));
      FirstAlternativeBuilt(before, f1, Gen(rules, p1, last, Protection(f1.cs, f1.e), FULL, da));
      JumpToHere(pchoice);
      JumpToHere(test);
    }

    /** test -> L1; choice L1; p1; commit L2; L1: p2; L2: */
    method CodeFullChoice(rules: seq<Tree>, p1: Tree, p2: Tree, opt: bool, f1: First, fl: Charset, da: nat)
      requires Wf(rules, p1) && Wf(rules, p2)
      modifies this
      ensures code == old(code) + FullChoice(f1, Gen(rules, p1, p2.TTrue?, Protection(f1.cs, f1.e), FULL, da),
                                             Gen(rules, p2, opt, NoTest, fl, da))
      decreases TChoice(p1, p2), 1
    {
      hide Gen;
      ghost var before := code;
      ghost var b1, b2 := Gen(rules, p1, p2.TTrue?, Protection(f1.cs, f1.e), FULL, da),
          Gen(rules, p2, opt, NoTest, fl, da);
      ghost var test := TestBlock(f1.cs, f1.e, 3 + |b1|);
      var pcommit := CodeFirstAlternative(rules, p1, p2.TTrue?, f1, da);
      CodeGen(rules, p2, opt, NOINST, fl, da);
      Appended(before, test, IChoice(2 + |b1|), b1, ICommit(0), b2);
      PatchSecond(before, test, IChoice(2 + |b1|), b1, ICommit(0), b2, ICommit(1 + |b2|));
      JumpToHere(pcommit);
    }

    /** partialcommit L1; L1: p1 */
    method CodeReusedChoice(rules: seq<Tree>, p1: Tree, ghost p2: Tree, da: nat)
      requires Wf(rules, p1)
      modifies this
      ensures code == old(code) + ([IPartialCommit(1)] + Gen(rules, p1, true, NoTest, FULL, da))
      decreases TChoice(p1, p2), 1
    {
      hide Gen;
      var pc := AddInstruction(IPartialCommit(0));
      JumpToHere(pc);
      assert code == old(code) + [IPartialCommit(1)];
      CodeGen(rules, p1, true, NOINST, FULL, da);
    }

    method CodeChoice(rules: seq<Tree>, p1: Tree, p2: Tree, opt: bool, ghost tt: Test, fl: Charset, da: nat)
      requires Wf(rules, p1) && Wf(rules, p2)
      modifies this
      ensures code == old(code) + Gen(rules, TChoice(p1, p2), opt, tt, fl, da)
      decreases TChoice(p1, p2), 2
    {
      var f1 := GetFirst(rules, p1, FULL, da);
      if HeadFail(rules, p1, da) || (!f1.e && Disjoint(f1.cs, GetFirst(rules, p2, fl, da).cs)) {
        CodeTestedChoice(rules, p1, p2, opt, f1, fl, da);
      } else if opt && p2.TTrue? {
        CodeReusedChoice(rules, p1, p2, da);
      } else {
        CodeFullChoice(rules, p1, p2, opt, f1, fl, da);
      }
    }

    /** L1: test -> L2; p; jmp L1; L2: */
    method CodeTestedRep(rules: seq<Tree>, b: Tree, f: First, da: nat)
      requires Wf(rules, b)
      modifies this
      ensures code == old(code) + TestedRep(f.cs, Gen(rules, b, false, Protection(f.cs, false), FULL, da))
      decreases TRep(b), 1
    {
      hide Gen;
      ghost var before := code;
      TestRelabelled(f.cs, 0);
      var test := CodeTestSet(f.cs, false);
      CodeGen(rules, b, false, test, FULL, da);
      var jmp := AddInstruction(IJmp(0));
      TestedRepBuilt(before, f.cs, Gen(rules, b, false, Protection(f.cs, false), FULL, da));
      JumpToHere(test);
      JumpToThere(jmp, test);
    }

    /** The choice of a repetition, or the update of the choice it reuses. */
    method EnterRep(opt: bool) returns (pchoice: int)
      modifies this
      ensures code == old(code) + [if opt then IPartialCommit(1) else IChoice(0)]
      ensures pchoice == if opt then NOINST else |old(code)|
    {
      pchoice := NOINST;
      if opt {
        var pc := AddInstruction(IPartialCommit(0));
        JumpToHere(pc);
      } else {
        pchoice := AddInstruction(IChoice(0));
      }
    }

    /** test -> L2; choice L2 (or partialcommit L1); L1: p; partialcommit L1; L2: */
    method CodeFullRep(rules: seq<Tree>, b: Tree, opt: bool, f: First, da: nat)
      requires Wf(rules, b)
      modifies this
      ensures code == old(code) + FullRep(f, opt, Gen(rules, b, false, NoTest, FULL, da))
      decreases TRep(b), 1
    {
      hide Gen;
      ghost var before := code;
      TestRelabelled(f.cs, 0);
      var test := CodeTestSet(f.cs, f.e);
      var pchoice := EnterRep(opt);
      var l2 := |code|;
      CodeGen(rules, b, false, NOINST, FULL, da);
      ghost var g := Gen(rules, b, false, NoTest, FULL, da);
      ghost var c := code;
      var commit := AddInstruction(IPartialCommit(0));
      JumpToThere(commit, l2);
      assert code == c + [IPartialCommit(-|g|)];
      FullRepBuilt(before, f, opt, g);
      JumpToHere(pchoice);
      ghost var c2 := code;
      JumpToHere(test);
      assert code == TestPatched(c2, f, |before|);
    }

    method CodeRep(rules: seq<Tree>, b: Tree, opt: bool, ghost tt: Test, fl: Charset, da: nat)
      requires Wf(rules, b)
      modifies this
      ensures code == old(code) + Gen(rules, TRep(b), opt, tt, fl, da)
      decreases TRep(b), 2
    {
      if IsCharPattern(b) {
        var _ := AddInstruction(ISpan(CharsetOf(b)));
      } else {
        var f := GetFirst(rules, b, FULL, da);
        if HeadFail(rules, b, da) || (!f.e && Disjoint(f.cs, fl)) {
          CodeTestedRep(rules, b, f, da);
        } else {
          CodeFullRep(rules, b, opt, f, da);
        }
      }
    }

    /** test -> L1; choice L1; p; failtwice; L1: */
    method CodeFullNot(rules: seq<Tree>, b: Tree, f: First, da: nat)
      requires Wf(rules, b)
      modifies this
      ensures code == old(code) + FullNot(f, Gen(rules, b, false, NoTest, FULL, da))
      decreases TNot(b), 1
    {
      hide Gen;
      ghost var before := code;
      TestRelabelled(f.cs, 0);
      var test := CodeTestSet(f.cs, f.e);
      var pchoice := AddInstruction(IChoice(0));
      CodeGen(rules, b, false, NOINST, FULL, da);
      var _ := AddInstruction(IFailTwice);
      FullNotBuilt(before, f, Gen(rules, b, false, NoTest, FULL, da));
      JumpToHere(pchoice);
      JumpToHere(test);
    }

    method CodeNot(rules: seq<Tree>, b: Tree, ghost opt: bool, ghost tt: Test, ghost fl: Charset, da: nat)
      requires Wf(rules, b)
      modifies this
      ensures code == old(code) + Gen(rules, TNot(b), opt, tt, fl, da)
      decreases TNot(b), 2
    {
      var f := GetFirst(rules, b, FULL, da);
      if HeadFail(rules, b, da) {
        var test := CodeTestSet(f.cs, f.e);
        TestRelabelled(f.cs, 0);
        TestRelabelled(f.cs, 2);
        var _ := AddInstruction(IFail);
        JumpToHere(test);
        assert code == old(code) + (TestBlock(f.cs, f.e, 2) + [IFail]);
      } else {
        CodeFullNot(rules, b, f, da);
      }
    }

    method CodeAnd(rules: seq<Tree>, b: Tree, tt: int, ghost opt: bool, ghost fl: Charset, da: nat)
      requires Wf(rules, b)
      requires NOINST <= tt < |code|
      modifies this
      ensures code == old(code) + Gen(rules, TAnd(b), opt, TestAt(old(code), tt), fl, da)
      decreases TAnd(b), 2
    {
      var n := FixedLen(rules, b, da);
      if n.Some? && n.value <= MAXBEHIND {
        CodeGen(rules, b, false, tt, FULL, da);
        if n.value > 0 {
          var _ := AddInstruction(IBehind(n.value));
        }
      } else {
        CodeFullAnd(rules, b, tt, da);
      }
    }

    /** choice L1; p; backcommit L2; L1: fail; L2: */
    method CodeFullAnd(rules: seq<Tree>, b: Tree, tt: int, da: nat)
      requires Wf(rules, b)
      requires NOINST <= tt < |code|
      modifies this
      ensures code == old(code) + FullAnd(Gen(rules, b, false, TestAt(old(code), tt), FULL, da))
      decreases TAnd(b), 1
    {
      hide Gen;
      ghost var before := code;
      var pchoice := AddInstruction(IChoice(0));
      CodeGen(rules, b, false, tt, FULL, da);
      var pcommit := AddInstruction(IBackCommit(0));
      FullAndBuilt(before, Gen(rules, b, false, TestAt(before, tt), FULL, da));
      JumpToHere(pchoice);
      var _ := AddInstruction(IFail);
      JumpToHere(pcommit);
    }

    /** rule 1; ret; rule 2; ret; ... and where each rule starts */
    method CodeRules(g: Tree, da: nat) returns (positions: seq<nat>)
      requires g.TGrammar? && Wf([], g)
      modifies this
      ensures code == old(code) + RuleCodes(g, |g.rules|, da)
      ensures |positions| == |g.rules|
      ensures forall r :: 0 <= r < |g.rules| ==> positions[r] == |old(code)| + |RuleCodes(g, r, da)|
      decreases g, 1
    {
      hide Gen, RuleCodes;
      ghost var before := code;
      NoRulesNoCode(g, da);
      positions := [];
      var k := 0;
      while k < |g.rules|
        invariant 0 <= k <= |g.rules| && |positions| == k
        invariant forall r :: 0 <= r < k ==> positions[r] == |before| + |RuleCodes(g, r, da)|
        invariant code == before + RuleCodes(g, k, da)
      {
        positions := positions + [|code|];
        CodeRule(g, k, before, da);
        k := k + 1;
      }
    }

    method CodeRule(g: Tree, k: nat, ghost before: seq<Instr>, da: nat)
      requires g.TGrammar? && Wf([], g) && k < |g.rules|
      requires code == before + RuleCodes(g, k, da)
      modifies this
      ensures code == before + RuleCodes(g, k + 1, da)
      decreases g, 0
    {
      CodeGen(g.rules, g.rules[k], false, NOINST, FULL, da);
      var _ := AddInstruction(IRet);
      ghost var c, r := RuleCodes(g, k, da), Gen(g.rules, g.rules[k], false, NoTest, FULL, da);
      assert before + c + r + [IRet] == before + (c + r + [IRet]);
    }

    /** call L1; jmp L2; L1: rules; L2: */
    method CodeGrammar(g: Tree, da: nat)
      requires g.TGrammar? && Wf([], g)
      modifies this
      ensures code == old(code) + Gen([], g, false, NoTest, FULL, da)
      decreases g, 2
    {
      hide Gen, CorrectCalls, RuleCodes;
      ghost var before := code;
      var firstCall := AddInstruction(ICall(0));
      var jumpToEnd := AddInstruction(IJmp(0));
      var start := |code|;
      JumpToHere(firstCall);
      assert code == before + [ICall(2), IJmp(0)];
      var positions := CodeRules(g, da);
      ghost var body := RuleCodes(g, |g.rules|, da);
      RawLaid(before, g, da);
      JumpToHere(jumpToEnd);
      assert positions == Shifted(|before|, RuleStarts(g, da));
      CorrectCallsInPlace(positions, start);
      RawClosed(g, da);
      CorrectShifted(before, RawGrammar(g, da), 2, RuleStarts(g, da));
      GrammarGen(g, da);
    }

    /** `finaltarget`, giving up after `limit` jumps: with as many as there are instructions where the
        chain is, it gives up only on a chain that never ends. */
    method FindFinalTarget(i: int, limit: nat, ghost from: nat) returns (t: int)
      ensures t == FinalTarget(code, i, limit)
      ensures from <= |code| <= from + limit && StaysFrom(code, from) && (IsJump(code, i) ==> from <= i) ==>
                EndFound(code, i, t)
    {
      if from <= |code| <= from + limit && StaysFrom(code, from) && (IsJump(code, i) ==> from <= i) {
        FinalTargetExact(code, from, i, limit);
      }
      t := i;
      var left := limit;
      while 0 <= t < |code| && code[t].IJmp? && left > 0
        invariant FinalTarget(code, t, left) == FinalTarget(code, i, limit)
        decreases left
      {
        t := t + code[t].off;
        left := left - 1;
      }
    }

    /** `correctcalls` for the code from `from` to the end. */
    method CorrectCallsInPlace(positions: seq<nat>, from: nat)
      requires from <= |code|
      modifies this
      ensures code == CorrectCalls(old(code), from, from, positions)
    {
      var i := from;
      while i < |code|
        invariant from <= i <= |code| == |old(code)|
        invariant CorrectCalls(code, from, i, positions) == CorrectCalls(old(code), from, from, positions)
      {
        if code[i].IOpenCall? && code[i].key < |positions| {
          var rule := positions[code[i].key];
          var ft := FindFinalTarget(i + 1, |code| - from, from);
          if 0 <= ft < |code| && code[ft].IRet? {
            code := code[i := IJmp(rule - i)];
          } else {
            code := code[i := ICall(rule - i)];
          }
        }
        i := i + 1;
      }
    }

    /** A jump to a commit becomes that instruction, with its own label followed to the end. */
    method TakeOver(i: nat, ft: nat)
      requires i < |code| && ft < |code| && HasLabel(code[ft])
      modifies this
      ensures code == Relabel(old(code)[i := WithLabel(old(code)[ft],
                                                       FinalTarget(old(code), ft + old(code)[ft].off,
                                                                   |old(code)|) - i)], i)
    {
      hide FinalTarget, EndFound;
      ghost var round := code;
      var fft := FindFinalTarget(ft + code[ft].off, |code|, 0);
      code := code[i := code[ft]];
      JumpToThere(i, fft);
      assert code == round[i := WithLabel(round[ft], fft - i)];
      var again := FindFinalTarget(i + code[i].off, |code|, 0);
      JumpToThere(i, again);
    }

    /** One round of the loop of `peephole`. */
    method PeepRound(i: nat)
      requires i < |code|
      modifies this
      ensures code == PeepAt(old(code), i)
    {
      hide FinalTarget, EndFound;
      if code[i].IJmp? {
        var ft := FindFinalTarget(i, |code|, 0);
        if 0 <= ft < |code| && (code[ft].IRet? || code[ft].IFail? || code[ft].IFailTwice? || code[ft].IEnd?) {
          code := code[i := code[ft]];
        } else if 0 <= ft < |code| && (code[ft].ICommit? || code[ft].IPartialCommit? || code[ft].IBackCommit?) {
          TakeOver(i, ft);
        } else {
          JumpToThere(i, ft);
        }
      } else if HasLabel(code[i]) {
        var ft := FindFinalTarget(i + code[i].off, |code|, 0);
        JumpToThere(i, ft);
      }
    }

    /** `peephole`, rewriting the code in place. */
    method Peephole()
      modifies this
      ensures code == PeepFrom(old(code), 0)
    {
      var i := 0;
      while i < |code|
        invariant 0 <= i <= |code|
        invariant PeepFrom(code, i) == PeepFrom(old(code), 0)
      {
        PeepRound(i);
        i := i + 1;
      }
    }
  }

  // ----- placing corrected calls after earlier code -----

  lemma {:induction false} FinalTargetShifted(pre: seq<Instr>, block: seq<Instr>, p: nat, limit: nat)
    requires p <= |block|
    requires forall k :: 0 <= k < |block| && block[k].IJmp? ==> 0 <= k + block[k].off <= |block|
    ensures FinalTarget(pre + block, |pre| + p, limit) == |pre| + FinalTarget(block, p, limit)
    ensures 0 <= FinalTarget(block, p, limit) <= |block|
    decreases limit
  {
    if p < |block| && limit > 0 && block[p].IJmp? {
      assert (pre + block)[|pre| + p] == block[p];
      FinalTargetShifted(pre, block, p + block[p].off, limit - 1);
    }
  }

  /** Correcting calls behind earlier code is correcting them alone. */
  lemma {:induction false} CorrectShifted(pre: seq<Instr>, block: seq<Instr>, i: nat, starts: seq<nat>)
    requires 2 <= i && Closed(block, |starts|) && 2 <= |block|
    requires forall k :: 0 <= k < |starts| ==> starts[k] <= |block|
    ensures CorrectCalls(pre + block, |pre| + 2, |pre| + i, Shifted(|pre|, starts)) == pre +
            CorrectCalls(block, 2, i, starts)
    decreases |block| - i
  {
    if i < |block| {
      assert (pre + block)[|pre| + i] == block[i];
      if block[i].IOpenCall? {
        assert InRange(block[i], i, |block|, |starts|);
        var key := block[i].key;
        assert forall k :: 0 <= k < |block| ==> InRange(block[k], k, |block|, |starts|);
        FinalTargetShifted(pre, block, i + 1, |block| - 2);
        var ft := FinalTarget(block, i + 1, |block| - 2);
        assert ft < |block| ==> (pre + block)[|pre| + ft] == block[ft];
        var fixed := FixedCall(block, 2, i, starts[key]);
        assert FixedCall(pre + block, |pre| + 2, |pre| + i, |pre| + starts[key]) == fixed;
        assert (pre + block)[|pre| + i := fixed] == pre + block[i := fixed];
        OneCorrectedClosed(block, i, starts);
        CorrectShifted(pre, block[i := fixed], i + 1, starts);
      } else {
        CorrectShifted(pre, block, i + 1, starts);
      }
    }
  }

  lemma OneCorrectedClosed(block: seq<Instr>, i: nat, starts: seq<nat>)
    requires Closed(block, |starts|) && 2 <= |block| && i < |block| && block[i].IOpenCall? && block[i].key < |starts|
    requires forall k :: 0 <= k < |starts| ==> starts[k] <= |block|
    ensures Closed(block[i := FixedCall(block, 2, i, starts[block[i].key])], |starts|)
  {
    var fixed := FixedCall(block, 2, i, starts[block[i].key]);
    var block' := block[i := fixed];
    forall k | 0 <= k < |block'| ensures InRange(block'[k], k, |block'|, |starts|) {
      assert InRange(block[k], k, |block|, |starts|);
    }
  }

  // ----- the whole compiler -----

  /** The code a pattern is compiled to. */
  function Compiled(t: Tree, da: nat): seq<Instr> {
    PeepFrom(Gen([], t, false, NoTest, FULL, da) + [IEnd], 0)
  }

  method Compile(t: Tree, da: nat) returns (code: seq<Instr>)
    requires Wf([], t)
    ensures code == Compiled(t, da)
  {
    var compst := new CompileState();
    compst.CodeGen([], t, false, NOINST, FULL, da);
    var _ := compst.AddInstruction(IEnd);
    assert compst.code == Gen([], t, false, NoTest, FULL, da) + [IEnd];
    compst.Peephole();
    code := compst.code;
  }

  /** What the machine must answer for a match: the end position, or failure. */
  function Answer(o: Outcome): Effect {
    match o
    case Ok(j) => Result(Some(j))
    case Fail => Result(None)
    case Diverge => Forever
  }

  lemma EndAnswers(code: seq<Instr>, s: seq<Byte>, p: nat, j: nat)
    requires p < |code| && code[p] == IEnd
    ensures Eff(code, s, Run(p, j, Bottom)) == Result(Some(j))
  {
    StepKeeps(code, s, Run(p, j, Bottom));
    HaltsGives(code, s, Done(Some(j)), 0);
  }

  lemma FailureAnswers(code: seq<Instr>, s: seq<Byte>)
    ensures Eff(code, s, Done(None)) == Result(None)
  {
    HaltsGives(code, s, Done(None), 0);
  }

  /** Before the peephole pass. */
  lemma GeneratedCorrect(t: Tree, da: nat, s: seq<Byte>, i: nat, d: nat)
    requires Wf([], t) && i <= |s| && Match([], t, s, i, d) != Diverge
    ensures MachineResult(Gen([], t, false, NoTest, FULL, da) + [IEnd], s, i) == Answer(Match([], t, s, i, d))
  {
    hide Eff, Gen;
    var g := Gen([], t, false, NoTest, FULL, da);
    var code := g + [IEnd];
    var env := Env(code, s, [], [], da, x => Eff(code, s, x));
    forall x {:trigger Step(code, s, x)} ensures env.eff(x) == env.eff(Step(code, s, x)) { StepKeeps(code, s, x); }
    forall k | 0 <= k < |g| ensures Fits(code, 0 + k, g[k], []) {
      GenClosed([], t, false, NoTest, FULL, da);
      assert InRange(g[k], k, |g|, 0);
    }
    GenCorrect(env, 0, t, false, NoTest, FULL, i, Bottom, d);
    var o := Match([], t, s, i, d);
    if o.Ok? {
      EndAnswers(code, s, |g|, o.j);
    } else {
      FailureAnswers(code, s);
    }
    assert env.E(Run(0, i, Bottom)) == Answer(o);
  }

  /** Compiling preserves meaning: on every subject, from every position, the machine running the
      compiled pattern halts with the end of the match, or with failure if there is none. */
  lemma CompiledCorrect(t: Tree, da: nat, s: seq<Byte>, i: nat, d: nat)
    requires Wf([], t) && i <= |s| && Match([], t, s, i, d) != Diverge
    ensures MachineResult(Compiled(t, da), s, i) == Answer(Match([], t, s, i, d))
  {
    hide Eff, Gen;
    GeneratedCorrect(t, da, s, i, d);
    PeepholeSame(Gen([], t, false, NoTest, FULL, da) + [IEnd], 0);
  }
}
