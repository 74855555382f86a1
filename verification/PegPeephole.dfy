/** `peephole`: labels are moved along chains of jumps, and jumps are replaced by what they
    lead to.  The rewritten program has the same result from every state. */
module PegPeephole {
  import opened PegTree
  import opened PegMachine
  import opened PegCode

  /** `q` is reached from `p` by `n` jumps. */
  predicate Jumps(code: seq<Instr>, p: int, q: int, n: nat)
    decreases n
  {
    if n == 0 then p == q
    else 0 <= p < |code| && code[p].IJmp? && Jumps(code, p + code[p].off, q, n - 1)
  }

  ghost predicate Leads(code: seq<Instr>, p: int, q: int) {
    exists n: nat :: Jumps(code, p, q, n)
  }

  /** The second stack is the first one with saved addresses moved along jumps. */
  ghost predicate StackAhead(code: seq<Instr>, a: Stack, b: Stack) {
    match (a, b)
    case (Bottom, Bottom) => true
    case (Back(p, i, below), Back(q, j, below')) => i == j && Leads(code, p, q) && StackAhead(code, below, below')
    case (Return(p, below), Return(q, below')) => Leads(code, p, q) && StackAhead(code, below, below')
    case _ => false
  }

  ghost predicate Ahead(code: seq<Instr>, a: State, b: State) {
    match (a, b)
    case (Run(p, i, st), Run(q, j, st')) => i == j && Leads(code, p, q) && StackAhead(code, st, st')
    case _ => a == b
  }

  /** Both states are about to run the same instruction, with saved addresses moved along jumps. */
  ghost predicate SameSpot(code: seq<Instr>, a: State, b: State) {
    match (a, b)
    case (Run(p, i, st), Run(q, j, st')) => i == j && p == q && StackAhead(code, st, st')
    case _ => a == b
  }

  lemma LeadsSelf(code: seq<Instr>, p: int)
    ensures Leads(code, p, p)
  {
    assert Jumps(code, p, p, 0);
  }

  lemma {:induction false} FailAhead(code: seq<Instr>, a: Stack, b: Stack)
    requires StackAhead(code, a, b)
    ensures Ahead(code, FailTo(a), FailTo(b))
  {
    if a.Return? { FailAhead(code, a.below, b.below); }
  }

  lemma {:induction false} StackAheadSelf(code: seq<Instr>, a: Stack)
    ensures StackAhead(code, a, a)
  {
    if !a.Bottom? {
      LeadsSelf(code, a.pc);
      StackAheadSelf(code, a.below);
    }
  }

  /** States at the same spot stay related by one step. */
  lemma StepAhead(code: seq<Instr>, s: seq<Byte>, a: State, b: State)
    requires SameSpot(code, a, b)
    ensures Ahead(code, Step(code, s, a), Step(code, s, b))
  {
    if a.Run? {
      FailAhead(code, a.stack, b.stack);
      if a.stack.Back? { FailAhead(code, a.stack.below, b.stack.below); }
      LeadsSelf(code, a.pc + 1);
      if 0 <= a.pc < |code| && HasLabel(code[a.pc]) { LeadsSelf(code, a.pc + code[a.pc].off); }
      if !a.stack.Bottom? { LeadsSelf(code, a.stack.pc); }
    }
  }

  /** A run may be moved ahead along jumps: it halts with the same result and in no more steps. */
  lemma {:induction false} AheadHalts(code: seq<Instr>, s: seq<Byte>, a: State, b: State, n: nat) returns (m: nat)
    requires Ahead(code, a, b) && Steps(code, s, a, n).Done?
    ensures m <= n && Steps(code, s, b, m) == Steps(code, s, a, n)
    decreases n
  {
    if n == 0 || !a.Run? {
      m := n;
    } else {
      var k: nat :| Jumps(code, a.pc, b.pc, k);
      if k == 0 {
        StepAhead(code, s, a, b);
        m := AheadHalts(code, s, Step(code, s, a), Step(code, s, b), n - 1);
        m := m + 1;
      } else {
        assert Jumps(code, a.pc + code[a.pc].off, b.pc, k - 1);
        m := AheadHalts(code, s, Step(code, s, a), b, n - 1);
      }
    }
  }

  lemma {:induction false} StuckForever(code: seq<Instr>, s: seq<Byte>, n: nat)
    ensures Steps(code, s, Stuck, n) == Stuck
  {
    if n > 0 { StuckForever(code, s, n - 1); }
  }

  /** Conversely, moving ahead along jumps loses no run that would halt. */
  lemma {:induction false} AheadReflects(code: seq<Instr>, s: seq<Byte>, a: State, b: State, m: nat) returns (n: nat)
    requires Ahead(code, a, b) && Steps(code, s, b, m).Done?
    ensures Steps(code, s, a, n) == Steps(code, s, b, m)
    decreases m
  {
    if m == 0 || !a.Run? {
      n := m;
    } else {
      var k: nat :| Jumps(code, a.pc, b.pc, k);
      var c := Run(b.pc, a.pos, a.stack);
      StepAhead(code, s, c, b);
      n := AheadReflects(code, s, Step(code, s, c), Step(code, s, b), m - 1);
      n := n + 1;
      JumpSteps(code, s, a, b.pc, k);
      StepsAdd(code, s, a, k, n);
      n := k + n;
    }
  }

  lemma {:induction false} JumpSteps(code: seq<Instr>, s: seq<Byte>, a: State, q: int, k: nat)
    requires a.Run? && Jumps(code, a.pc, q, k)
    ensures Steps(code, s, a, k) == Run(q, a.pos, a.stack)
    decreases k
  {
    if k > 0 { JumpSteps(code, s, Step(code, s, a), q, k - 1); }
  }

  lemma {:induction false} StepsAdd(code: seq<Instr>, s: seq<Byte>, a: State, k: nat, n: nat)
    ensures Steps(code, s, a, k + n) == Steps(code, s, Steps(code, s, a, k), n)
    decreases k
  {
    if k > 0 { StepsAdd(code, s, Step(code, s, a), k - 1, n); }
  }

  /** One instruction of a program may be replaced: from every state, a step of the new program
      is ahead of one or more steps of the old one. */
  ghost predicate Improves(code: seq<Instr>, code': seq<Instr>) {
    |code'| == |code| &&
    forall s: seq<Byte>, x: State :: x.Run? ==> StepImproved(code, code', s, x)
  }

  ghost predicate StepImproved(code: seq<Instr>, code': seq<Instr>, s: seq<Byte>, x: State) {
    exists k: nat :: k > 0 && Ahead(code, Steps(code, s, x, k), Step(code', s, x))
  }

  lemma {:induction false} ImprovedHalts(code: seq<Instr>, code': seq<Instr>, s: seq<Byte>, x: State, n: nat)
      returns (m: nat)
    requires Improves(code, code') && Steps(code, s, x, n).Done?
    ensures Steps(code', s, x, m) == Steps(code, s, x, n)
    decreases n
  {
    if !x.Run? {
      m := n;
      SettledSame(code, code', s, x, n);
    } else {
      assert StepImproved(code, code', s, x);
      var k: nat :| k > 0 && Ahead(code, Steps(code, s, x, k), Step(code', s, x));
      var y, y' := Steps(code, s, x, k), Step(code', s, x);
      if k <= n {
        StepsAdd(code, s, x, k, n - k);
        m := AheadHalts(code, s, y, y', n - k);
      } else {
        StepsAdd(code, s, x, n, k - n);
        DoneStays(code, s, Steps(code, s, x, n), k - n);
        m := 0;
      }
      m := ImprovedHalts(code, code', s, y', m);
      m := m + 1;
    }
  }

  lemma {:induction false} SettledSame(code: seq<Instr>, code': seq<Instr>, s: seq<Byte>, x: State, n: nat)
    requires !x.Run?
    ensures Steps(code, s, x, n) == Steps(code', s, x, n) == x
  {
    if n > 0 { SettledSame(code, code', s, x, n - 1); }
  }

  lemma {:induction false} ImprovedReflects(code: seq<Instr>, code': seq<Instr>, s: seq<Byte>, x: State, m: nat)
      returns (n: nat)
    requires Improves(code, code') && Steps(code', s, x, m).Done?
    ensures Steps(code, s, x, n) == Steps(code', s, x, m)
    decreases m
  {
    if !x.Run? {
      n := m;
      SettledSame(code, code', s, x, n);
    } else {
      assert StepImproved(code, code', s, x);
      var k: nat :| k > 0 && Ahead(code, Steps(code, s, x, k), Step(code', s, x));
      var y, y' := Steps(code, s, x, k), Step(code', s, x);
      n := ImprovedReflects(code, code', s, y', m - 1);
      n := AheadReflects(code, s, y, y', n);
      StepsAdd(code, s, x, k, n);
      n := k + n;
    }
  }

  ghost predicate SameMeaning(code: seq<Instr>, code': seq<Instr>) {
    forall s: seq<Byte>, x: State :: Eff(code', s, x) == Eff(code, s, x)
  }

  /** An improved program has the same result from every state, or runs forever like the old one. */
  lemma ImprovedSame(code: seq<Instr>, code': seq<Instr>)
    requires Improves(code, code')
    ensures SameMeaning(code, code')
  {
    forall s: seq<Byte>, x: State ensures Eff(code', s, x) == Eff(code, s, x) {
      if Halts(code, s, x) {
        var n: nat :| Steps(code, s, x, n).Done?;
        var m := ImprovedHalts(code, code', s, x, n);
        HaltsGives(code, s, x, n);
        HaltsGives(code', s, x, m);
      } else if Halts(code', s, x) {
        var m: nat :| Steps(code', s, x, m).Done?;
        var n := ImprovedReflects(code, code', s, x, m);
        assert false;
      }
    }
  }

  // ----- the rewriting -----

  /** Instructions that go elsewhere without using their own position, labels apart. */
  predicate Leaves(ins: Instr) {
    ins.IRet? || ins.IFail? || ins.IFailTwice? || ins.IEnd? ||
    ins.ICommit? || ins.IPartialCommit? || ins.IBackCommit?
  }

  /** `jumptothere(i, finallabel(i))` */
  function Relabel(code: seq<Instr>, i: nat): (r: seq<Instr>)
    requires i < |code| && HasLabel(code[i])
    ensures |r| == |code|
  {
    code[i := WithLabel(code[i], FinalTarget(code, i + code[i].off, |code|) - i)]
  }

  /** One round of the loop of `peephole`. */
  function PeepAt(code: seq<Instr>, i: nat): (r: seq<Instr>)
    requires i < |code|
    ensures |r| == |code|
  {
    if code[i].IJmp? then
      var ft := FinalTarget(code, i, |code|);
      if 0 <= ft < |code| && Leaves(code[ft]) then
        if HasLabel(code[ft]) then
          var fft := FinalTarget(code, ft + code[ft].off, |code|);
          Relabel(code[i := WithLabel(code[ft], fft - i)], i)
        else code[i := code[ft]]
      else code[i := IJmp(ft - i)]
    else if HasLabel(code[i]) then Relabel(code, i)
    else code
  }

  function PeepFrom(code: seq<Instr>, i: nat): (r: seq<Instr>)
    ensures |r| == |code|
    decreases |code| - i
  {
    if i >= |code| then code else PeepFrom(PeepAt(code, i), i + 1)
  }

  lemma {:induction false} FinalTargetJumps(code: seq<Instr>, i: int, limit: nat) returns (n: nat)
    ensures Jumps(code, i, FinalTarget(code, i, limit), n)
    ensures 0 <= i < |code| && code[i].IJmp? && limit > 0 ==> n > 0
    decreases limit
  {
    if 0 <= i < |code| && code[i].IJmp? && limit > 0 {
      n := FinalTargetJumps(code, i + code[i].off, limit - 1);
      n := n + 1;
    } else {
      n := 0;
    }
  }

  predicate IsJump(code: seq<Instr>, i: int) {
    0 <= i < |code| && code[i].IJmp?
  }

  /** The chain of jumps from `i`, however long, ends at `t`. */
  ghost predicate ChainEnds(code: seq<Instr>, i: int, t: int) {
    !IsJump(code, t) && exists n: nat :: Jumps(code, i, t, n)
  }

  ghost predicate Within(code: seq<Instr>, p: int, q: int, n: nat) {
    exists m: nat :: m <= n && Jumps(code, p, q, m)
  }

  /** No jump from `from` on leads to a jump before it. */
  predicate StaysFrom(code: seq<Instr>, from: nat) {
    forall p :: from <= p < |code| && code[p].IJmp? ==> !IsJump(code, p + code[p].off) || from <= p + code[p].off
  }

  /** The jumps passed on the way from `i` to the end of the chain: each is passed once. */
  lemma {:induction false} Passed(code: seq<Instr>, from: nat, i: int, t: int, n: nat) returns (passed: set<int>)
    requires StaysFrom(code, from) && (IsJump(code, i) ==> from <= i)
    requires Jumps(code, i, t, n) && !IsJump(code, t)
    ensures |passed| == n
    ensures forall p :: p in passed ==> from <= p < |code| && Within(code, p, t, n)
    ensures forall m: nat :: Jumps(code, i, t, m) ==> m == n
    decreases n
  {
    passed := {};
    if n > 0 {
      var rest := Passed(code, from, i + code[i].off, t, n - 1);
      forall m: nat | Jumps(code, i, t, m) ensures m == n {
        assert Jumps(code, i + code[i].off, t, m - 1);
      }
      assert i !in rest;
      passed := rest + {i};
      forall p | p in passed ensures from <= p < |code| && Within(code, p, t, n) {
        if p == i { assert Jumps(code, p, t, n); }
      }
    }
  }

  lemma {:induction false} Below(s: set<int>, lo: int, hi: int)
    requires lo <= hi && forall p :: p in s ==> lo <= p < hi
    ensures |s| <= hi - lo
    decreases hi - lo
  {
    if lo < hi {
      Below(s - {hi - 1}, lo, hi - 1);
    } else {
      assert forall p :: p !in s;
    }
  }

  lemma {:induction false} Followed(code: seq<Instr>, i: int, t: int, n: nat, limit: nat)
    requires Jumps(code, i, t, n) && !IsJump(code, t) && n <= limit
    ensures FinalTarget(code, i, limit) == t
    decreases n
  {
    if n > 0 { Followed(code, i + code[i].off, t, n - 1, limit - 1); }
  }

  /** `t` is where the chain ends, or a jump in a chain that never ends. */
  ghost predicate EndFound(code: seq<Instr>, i: int, t: int) {
    forall u :: ChainEnds(code, i, u) <==> u == t && !IsJump(code, t)
  }

  /** A chain of jumps that ends at all passes no more jumps than there are instructions. */
  lemma FinalTargetExact(code: seq<Instr>, from: nat, i: int, limit: nat)
    requires from <= |code| <= from + limit && StaysFrom(code, from) && (IsJump(code, i) ==> from <= i)
    ensures EndFound(code, i, FinalTarget(code, i, limit))
  {
    var n := FinalTargetJumps(code, i, limit);
    forall t | ChainEnds(code, i, t) ensures t == FinalTarget(code, i, limit) {
      var m: nat :| Jumps(code, i, t, m);
      var passed := Passed(code, from, i, t, m);
      Below(passed, from, |code|);
      Followed(code, i, t, m, limit);
    }
  }

  lemma AheadSelf(code: seq<Instr>, a: State)
    ensures Ahead(code, a, a)
  {
    if a.Run? {
      LeadsSelf(code, a.pc);
      StackAheadSelf(code, a.stack);
    }
  }

  /** A label may be moved along jumps. */
  lemma RelabelImproves(code: seq<Instr>, i: nat, off: int)
    requires i < |code| && HasLabel(code[i]) && Leads(code, i + code[i].off, i + off)
    ensures Improves(code, code[i := WithLabel(code[i], off)])
  {
    var code' := code[i := WithLabel(code[i], off)];
    forall s: seq<Byte>, x: State | x.Run? ensures StepImproved(code, code', s, x) {
      var y := Step(code, s, x);
      if x.pc == i {
        StackAheadSelf(code, x.stack);
        LeadsSelf(code, i + 1);
        AheadSelf(code, y);
        if x.stack.Back? { StackAheadSelf(code, x.stack.below); LeadsSelf(code, x.stack.pc); }
      } else {
        AheadSelf(code, y);
      }
      assert Ahead(code, y, Step(code', s, x));
      assert Steps(code, s, x, 1) == Steps(code, s, y, 0);
    }
  }

  /** A jump may be replaced by the instruction it leads to. */
  lemma InlineImproves(code: seq<Instr>, i: nat, ft: nat, n: nat, ins: Instr)
    requires i < |code| && ft < |code| && n > 0 && Jumps(code, i, ft, n) && Leaves(code[ft])
    requires if HasLabel(code[ft])
             then exists off :: Leads(code, ft + code[ft].off, i + off) && ins == WithLabel(code[ft], off)
             else ins == code[ft]
    ensures Improves(code, code[i := ins])
  {
    var code' := code[i := ins];
    forall s: seq<Byte>, x: State | x.Run? ensures StepImproved(code, code', s, x) {
      if x.pc == i {
        JumpSteps(code, s, x, ft, n);
        StepsAdd(code, s, x, n, 1);
        var z := Run(ft, x.pos, x.stack);
        assert Steps(code, s, z, 1) == Steps(code, s, Step(code, s, z), 0);
        InlinedStep(code, code', s, i, ft, x.pos, x.stack);
        assert Ahead(code, Steps(code, s, x, n + 1), Step(code', s, x));
      } else {
        AheadSelf(code, Step(code, s, x));
        assert Steps(code, s, x, 1) == Steps(code, s, Step(code, s, x), 0);
      }
    }
  }

  /** An instruction that leaves its place does so alike from two places, up to jumps. */
  lemma InlinedStep(code: seq<Instr>, code': seq<Instr>, s: seq<Byte>, i: nat, ft: nat, pos: nat, st: Stack)
    requires i < |code'| && ft < |code| && Leaves(code[ft])
    requires if HasLabel(code[ft])
             then exists off :: Leads(code, ft + code[ft].off, i + off) && code'[i] == WithLabel(code[ft], off)
             else code'[i] == code[ft]
    ensures Ahead(code, Step(code, s, Run(ft, pos, st)), Step(code', s, Run(i, pos, st)))
  {
    AheadSelf(code, Step(code, s, Run(ft, pos, st)));
    StackAheadSelf(code, st);
    if st.Back? {
      StackAheadSelf(code, st.below);
      LeadsSelf(code, st.pc);
    }
  }

  lemma RelabelSame(code: seq<Instr>, i: nat)
    requires i < |code| && HasLabel(code[i])
    ensures SameMeaning(code, Relabel(code, i))
  {
    var n := FinalTargetJumps(code, i + code[i].off, |code|);
    var off := FinalTarget(code, i + code[i].off, |code|) - i;
    assert Leads(code, i + code[i].off, i + off);
    RelabelImproves(code, i, off);
    ImprovedSame(code, Relabel(code, i));
  }

  /** One round of the loop keeps the meaning of the program. */
  lemma PeepAtSame(code: seq<Instr>, i: nat)
    requires i < |code|
    ensures SameMeaning(code, PeepAt(code, i))
  {
    if code[i].IJmp? {
      var ft := FinalTarget(code, i, |code|);
      var n := FinalTargetJumps(code, i, |code|);
      if 0 <= ft < |code| && Leaves(code[ft]) {
        if HasLabel(code[ft]) {
          var fft := FinalTarget(code, ft + code[ft].off, |code|);
          var k := FinalTargetJumps(code, ft + code[ft].off, |code|);
          assert Leads(code, ft + code[ft].off, i + (fft - i));
          var code' := code[i := WithLabel(code[ft], fft - i)];
          InlineImproves(code, i, ft, n, WithLabel(code[ft], fft - i));
          ImprovedSame(code, code');
          RelabelSame(code', i);
        } else {
          InlineImproves(code, i, ft, n, code[ft]);
          ImprovedSame(code, code[i := code[ft]]);
        }
      } else {
        assert Jumps(code, i + code[i].off, ft, n - 1);
        assert Leads(code, i + code[i].off, i + (ft - i));
        RelabelImproves(code, i, ft - i);
        ImprovedSame(code, code[i := IJmp(ft - i)]);
      }
    } else if HasLabel(code[i]) {
      RelabelSame(code, i);
    }
  }

  /** The peephole pass keeps the meaning of every program. */
  lemma {:induction false} PeepholeSame(code: seq<Instr>, i: nat)
    ensures SameMeaning(code, PeepFrom(code, i))
    decreases |code| - i
  {
    if i < |code| {
      PeepAtSame(code, i);
      PeepholeSame(PeepAt(code, i), i + 1);
    }
  }
}
