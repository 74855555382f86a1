/** Generated code is closed: its labels stay inside it, and its calls name rules in scope. */
module PegClosed {
  import opened PegTree
  import opened PegAnalysis
  import opened PegMachine
  import opened PegCode
  import opened PegPlacement

  /** An instruction of a block: a call names one of `n` rules, a label stays in the block. */
  predicate InRange(ins: Instr, k: int, len: nat, n: nat) {
    (ins.IOpenCall? ==> ins.key < n) && (HasLabel(ins) ==> 0 <= k + ins.off <= len)
  }

  predicate Closed(block: seq<Instr>, n: nat) {
    forall k :: 0 <= k < |block| ==> InRange(block[k], k, |block|, n)
  }

  lemma ClosedConcat(a: seq<Instr>, b: seq<Instr>, n: nat)
    requires Closed(a, n) && Closed(b, n)
    ensures Closed(a + b, n)
  {
    forall k | 0 <= k < |a + b| ensures InRange((a + b)[k], k, |a + b|, n) {
      if k < |a| {
        assert InRange(a[k], k, |a|, n);
      } else {
        assert InRange(b[k - |a|], k - |a|, |b|, n);
      }
    }
  }

  lemma ClosedAround(a: seq<Instr>, x: Instr, b: seq<Instr>, y: Instr, c: seq<Instr>, n: nat)
    requires var len := |a| + |b| + |c| + 2;
             |a| <= 1 && (a != [] ==> InRange(a[0], 0, len, n)) &&
             InRange(x, |a|, len, n) && InRange(y, |a| + 1 + |b|, len, n)
    requires Closed(b, n) && Closed(c, n)
    ensures Closed(Around(a, x, b, y, c), n)
  {
    var r := Around(a, x, b, y, c);
    forall k | 0 <= k < |r| ensures InRange(r[k], k, |r|, n) {
      var m := k - |a| - 1;
      if 0 <= m < |b| {
        assert r[k] == b[m] && InRange(b[m], m, |b|, n);
      } else if m > |b| {
        assert r[k] == c[m - |b| - 1] && InRange(c[m - |b| - 1], m - |b| - 1, |c|, n);
      }
    }
  }

  lemma ClosedTestedChoice(cs: Charset, b1: seq<Instr>, emptyp2: bool, b2: seq<Instr>, n: nat)
    requires Closed(b1, n) && Closed(b2, n)
    ensures Closed(TestedChoice(cs, b1, emptyp2, b2), n)
  {
    if emptyp2 {
      ClosedConcat(b1, b2, n);
      var r := TestedChoice(cs, b1, emptyp2, b2);
      forall k | 0 <= k < |r| ensures InRange(r[k], k, |r|, n) {
        if k > 0 { assert r[k] == (b1 + b2)[k - 1] && InRange((b1 + b2)[k - 1], k - 1, |b1 + b2|, n); }
      }
    } else {
      ClosedAround([], TestInstr(cs, 2 + |b1|), b1, IJmp(1 + |b2|), b2, n);
      assert TestedChoice(cs, b1, emptyp2, b2) == Around([], TestInstr(cs, 2 + |b1|), b1, IJmp(1 + |b2|), b2);
    }
  }

  lemma ClosedRep(f: First, opt: bool, g: seq<Instr>, n: nat)
    requires Closed(g, n)
    ensures Closed(TestedRep(f.cs, g), n) && Closed(FullRep(f, opt, g), n)
  {
    ClosedAround([], TestInstr(f.cs, 2 + |g|), g, IJmp(-(1 + |g|)), [], n);
    var enter := if opt then IPartialCommit(1) else IChoice(2 + |g|);
    ClosedAround(TestBlock(f.cs, f.e, 3 + |g|), enter, g, IPartialCommit(-|g|), [], n);
  }

  lemma {:induction false} ChoiceClosed(rules: seq<Tree>, p1: Tree, p2: Tree, opt: bool, tt: Test, fl: Charset, da: nat)
    requires Wf(rules, TChoice(p1, p2))
    ensures Closed(Gen(rules, TChoice(p1, p2), opt, tt, fl, da), |rules|)
    decreases TChoice(p1, p2), 0
  {
    var f1 := GetFirst(rules, p1, FULL, da);
    var n := |rules|;
    var b2 := Gen(rules, p2, opt, NoTest, fl, da);
    GenClosed(rules, p2, opt, NoTest, fl, da);
    if ChoiceByTest(rules, p1, p2, fl, da) {
      GenClosed(rules, p1, false, Protection(f1.cs, false), fl, da);
      ClosedTestedChoice(f1.cs, Gen(rules, p1, false, Protection(f1.cs, false), fl, da), p2.TTrue?, b2, n);
    } else if opt && p2.TTrue? {
      GenClosed(rules, p1, true, NoTest, FULL, da);
      ClosedConcat([IPartialCommit(1)], Gen(rules, p1, true, NoTest, FULL, da), n);
    } else {
      GenClosed(rules, p1, p2.TTrue?, Protection(f1.cs, f1.e), FULL, da);
      var b1 := Gen(rules, p1, p2.TTrue?, Protection(f1.cs, f1.e), FULL, da);
      ClosedAround(TestBlock(f1.cs, f1.e, 3 + |b1|), IChoice(2 + |b1|), b1, ICommit(1 + |b2|), b2, n);
    }
  }

  lemma {:induction false} RepClosed(rules: seq<Tree>, b: Tree, opt: bool, tt: Test, fl: Charset, da: nat)
    requires Wf(rules, TRep(b))
    ensures Closed(Gen(rules, TRep(b), opt, tt, fl, da), |rules|)
    decreases TRep(b), 0
  {
    if !IsCharPattern(b) {
      var f := GetFirst(rules, b, FULL, da);
      GenClosed(rules, b, false, Protection(f.cs, false), FULL, da);
      ClosedRep(f, opt, Gen(rules, b, false, Protection(f.cs, false), FULL, da), |rules|);
      GenClosed(rules, b, false, NoTest, FULL, da);
      ClosedRep(f, opt, Gen(rules, b, false, NoTest, FULL, da), |rules|);
    }
  }

  lemma {:induction false} NotClosed(rules: seq<Tree>, b: Tree, opt: bool, tt: Test, fl: Charset, da: nat)
    requires Wf(rules, TNot(b))
    ensures Closed(Gen(rules, TNot(b), opt, tt, fl, da), |rules|)
    decreases TNot(b), 0
  {
    if !HeadFail(rules, b, da) {
      var f := GetFirst(rules, b, FULL, da);
      var g := Gen(rules, b, false, NoTest, FULL, da);
      GenClosed(rules, b, false, NoTest, FULL, da);
      ClosedAround(TestBlock(f.cs, f.e, 3 + |g|), IChoice(2 + |g|), g, IFailTwice, [], |rules|);
    }
  }

  lemma {:induction false} AndClosed(rules: seq<Tree>, b: Tree, opt: bool, tt: Test, fl: Charset, da: nat)
    requires Wf(rules, TAnd(b))
    ensures Closed(Gen(rules, TAnd(b), opt, tt, fl, da), |rules|)
    decreases TAnd(b), 0
  {
    var g := Gen(rules, b, false, tt, FULL, da);
    GenClosed(rules, b, false, tt, FULL, da);
    if AndByLength(rules, b, da) {
      ClosedConcat(g, var n := FixedLen(rules, b, da).value; if n > 0 then [IBehind(n)] else [], |rules|);
    } else {
      ClosedAround([], IChoice(2 + |g|), g, IBackCommit(2), [IFail], |rules|);
    }
  }

  /** Generated code keeps its labels inside and calls only rules of the enclosing grammar. */
  lemma {:induction false} GenClosed(rules: seq<Tree>, t: Tree, opt: bool, tt: Test, fl: Charset, da: nat)
    requires Wf(rules, t)
    ensures Closed(Gen(rules, t, opt, tt, fl, da), |rules|)
    decreases t, if t.TGrammar? then |t.rules| + 1 else 1
  {
    match t
    case TSeq(p1, p2) =>
      GenClosed(rules, p1, false, tt, SeqFollow(rules, p1, p2, fl, da), da);
      GenClosed(rules, p2, opt, SeqTest(rules, p1, tt, da), fl, da);
      ClosedConcat(Gen(rules, p1, false, tt, SeqFollow(rules, p1, p2, fl, da), da),
                   Gen(rules, p2, opt, SeqTest(rules, p1, tt, da), fl, da), |rules|);
    case TChoice(p1, p2) => ChoiceClosed(rules, p1, p2, opt, tt, fl, da);
    case TRep(b) => RepClosed(rules, b, opt, tt, fl, da);
    case TNot(b) => NotClosed(rules, b, opt, tt, fl, da);
    case TAnd(b) => AndClosed(rules, b, opt, tt, fl, da);
    case TBehind(b, n) =>
      GenClosed(rules, b, false, NoTest, FULL, da);
      ClosedConcat(if n > 0 then [IBehind(n)] else [], Gen(rules, b, false, NoTest, FULL, da), |rules|);
    case TGrammar(rs) => GrammarClosed(t, da);
    case _ =>
  }

  lemma {:induction false} RuleCodesClosed(g: Tree, k: nat, da: nat)
    requires g.TGrammar? && Wf([], g) && k <= |g.rules|
    ensures Closed(RuleCodes(g, k, da), |g.rules|)
    decreases g, k
  {
    if k > 0 {
      RuleCodesClosed(g, k - 1, da);
      GenClosed(g.rules, g.rules[k - 1], false, NoTest, FULL, da);
      ClosedConcat(RuleCodes(g, k - 1, da), Gen(g.rules, g.rules[k - 1], false, NoTest, FULL, da), |g.rules|);
      ClosedConcat(RuleCodes(g, k - 1, da) + Gen(g.rules, g.rules[k - 1], false, NoTest, FULL, da), [IRet], |g.rules|);
    }
  }

  lemma {:induction false} RawClosed(g: Tree, da: nat)
    requires g.TGrammar? && Wf([], g)
    ensures Closed(RawGrammar(g, da), |g.rules|)
    ensures forall k :: 0 <= k < |g.rules| ==> RuleStarts(g, da)[k] <= |RawGrammar(g, da)|
    decreases g, |g.rules| + 1, 0
  {
    RuleCodesClosed(g, |g.rules|, da);
    var body := RuleCodes(g, |g.rules|, da);
    var raw := RawGrammar(g, da);
    forall k | 0 <= k < |raw| ensures InRange(raw[k], k, |raw|, |g.rules|) {
      if k >= 2 { assert raw[k] == body[k - 2] && InRange(body[k - 2], k - 2, |body|, |g.rules|); }
    }
    forall k | 0 <= k < |g.rules| ensures RuleStarts(g, da)[k] <= |RawGrammar(g, da)| {
      RuleCodesPrefix(g, k, |g.rules|, da);
    }
  }

  /** In the code of a grammar no call is left open and no label leaves it. */
  lemma {:induction false} GrammarClosed(g: Tree, da: nat)
    requires g.TGrammar? && Wf([], g)
    ensures Closed(Gen([], g, false, NoTest, FULL, da), 0)
    decreases g, |g.rules| + 1, 1
  {
    RawClosed(g, da);
    CorrectedClosed(RawGrammar(g, da), 2, 2, RuleStarts(g, da));
    CorrectCallsSpec(RawGrammar(g, da), 2, 2, RuleStarts(g, da));
  }

  lemma {:induction false} CorrectedClosed(code: seq<Instr>, from: nat, i: nat, starts: seq<nat>)
    requires from <= |code| && Closed(code, |starts|)
    requires forall k :: 0 <= k < |starts| ==> starts[k] <= |code|
    ensures Closed(CorrectCalls(code, from, i, starts), |starts|)
    decreases |code| - i
  {
    if i < |code| {
      if code[i].IOpenCall? {
        var code' := code[i := FixedCall(code, from, i, starts[code[i].key])];
        forall k | 0 <= k < |code'| ensures InRange(code'[k], k, |code'|, |starts|) {
          assert InRange(code[k], k, |code|, |starts|);
        }
        CorrectedClosed(code', from, i + 1, starts);
      } else {
        CorrectedClosed(code, from, i + 1, starts);
      }
    }
  }

  lemma {:induction false} RuleCodesPrefix(g: Tree, k: nat, n: nat, da: nat)
    requires g.TGrammar? && k <= n <= |g.rules|
    ensures RuleCodes(g, k, da) <= RuleCodes(g, n, da)
    decreases n
  {
    if k < n { RuleCodesPrefix(g, k, n - 1, da); }
  }
}
