/** What the compiler saves: calls in last position are jumps, no label is left on a jump, and a pattern whose
    alternatives are told apart by one character is compiled without a single backtrack entry. */
module PegEconomy {
  import opened Wrappers
  import opened PegTree
  import opened PegAnalysis
  import opened PegMachine
  import opened PegCode
  import opened PegPlacement
  import opened PegClosed
  import opened PegPeephole

  // ----- the first characters of a pattern without predicates -----

  /** Patterns without predicates and rules; the empty pattern only as a second alternative. */
  predicate Regular(t: Tree) {
    match t
    case TChar(_) => true
    case TSet(_) => true
    case TAny => true
    case TFalse => true
    case TRep(b) => Regular(b)
    case TSeq(p1, p2) => Regular(p1) && Regular(p2)
    case TChoice(p1, p2) => Regular(p1) && (p2.TTrue? || Regular(p2))
    case _ => false
  }

  /** One of the ways to match the pattern consumes nothing. */
  predicate Empties(t: Tree) {
    match t
    case TTrue => true
    case TRep(_) => true
    case TSeq(p1, p2) => Empties(p1) && Empties(p2)
    case TChoice(p1, p2) => Empties(p1) || Empties(p2)
    case _ => false
  }

  /** One of the ways to match the pattern consumes `c` first. */
  predicate Begins(t: Tree, c: Byte) {
    match t
    case TChar(x) => c == x
    case TSet(cs) => c in cs
    case TAny => true
    case TRep(b) => Begins(b, c)
    case TSeq(p1, p2) => Begins(p1, c) || (Empties(p1) && Begins(p2, c))
    case TChoice(p1, p2) => Begins(p1, c) || Begins(p2, c)
    case _ => false
  }

  /** The characters that the pattern, or what follows it, may consume first. */
  function Starts(t: Tree, follow: Charset): Charset {
    (set c: Byte | Begins(t, c)) + (if Empties(t) then follow else {})
  }

  /** On such a pattern `getfirst` is exact, and so are `nullable` and the answer of `getfirst`. */
  lemma {:induction false} FirstIs(rules: seq<Tree>, t: Tree, follow: Charset, da: nat)
    requires Regular(t) || t.TTrue?
    ensures GetFirst(rules, t, follow, da) == First(Starts(t, follow), Empties(t))
    ensures CheckAux(rules, t, Nullable, da) == Empties(t)
  {
    match t
    case TSeq(p1, p2) =>
      FirstIs(rules, p1, FULL, da);
      FirstIs(rules, p2, follow, da);
      FirstIs(rules, p1, Starts(p2, follow), da);
    case TChoice(p1, p2) =>
      FirstIs(rules, p1, follow, da);
      FirstIs(rules, p2, follow, da);
    case TRep(b) => FirstIs(rules, b, follow, da);
    case _ =>
  }

  // ----- no backtrack entries -----

  /** One character tells whether to take the first alternative, and whether to go on repeating. */
  predicate Deterministic(t: Tree, follow: Charset) {
    match t
    case TSeq(p1, p2) => Deterministic(p1, Starts(p2, follow)) && Deterministic(p2, follow)
    case TChoice(p1, p2) =>
      !Empties(p1) && Disjoint(Starts(p1, FULL), Starts(p2, follow)) && Deterministic(p1, follow) &&
      Deterministic(p2, follow)
    case TRep(b) =>
      IsCharPattern(b) ||
      (!Empties(b) && Disjoint(Starts(b, FULL), follow) && Deterministic(b, FULL))
    case _ => true
  }

  /** An instruction that works on the stack of saved positions. */
  predicate Backtracks(ins: Instr) {
    ins.IChoice? || ins.ICommit? || ins.IPartialCommit? || ins.IBackCommit? || ins.IFailTwice?
  }

  predicate NoEntries(code: seq<Instr>) {
    forall k :: 0 <= k < |code| ==> !Backtracks(code[k])
  }

  /** A pattern that does not need its follow set always consumes something. */
  lemma {:induction false} NoFollowNeeded(t: Tree)
    requires Regular(t) && !NeedFollow(t)
    ensures !Empties(t)
  {
    match t
    case TSeq(_, p2) => NoFollowNeeded(p2);
    case _ =>
  }

  lemma {:induction false} AnyFollow(t: Tree, f: Charset, f': Charset)
    requires Regular(t) && !NeedFollow(t) && Deterministic(t, f)
    ensures Deterministic(t, f')
  {
    match t
    case TSeq(p1, p2) =>
      NoFollowNeeded(p2);
      AnyFollow(p2, f, f');
    case _ =>
  }

  lemma NoneInTwo(a: seq<Instr>, b: seq<Instr>)
    requires NoEntries(a) && NoEntries(b)
    ensures NoEntries(a + b)
  {
  }

  lemma NoneInTest(cs: Charset, off: int)
    ensures NoEntries([TestInstr(cs, off)])
  {
  }

  lemma NoneInTestedChoice(cs: Charset, b1: seq<Instr>, emptyp2: bool, b2: seq<Instr>)
    requires NoEntries(b1) && NoEntries(b2)
    ensures NoEntries(TestedChoice(cs, b1, emptyp2, b2))
  {
    var jmp := if emptyp2 then [] else [IJmp(1 + |b2|)];
    NoneInTest(cs, 1 + |b1| + |jmp|);
    NoneInTwo([TestInstr(cs, 1 + |b1| + |jmp|)], b1);
    NoneInTwo([TestInstr(cs, 1 + |b1| + |jmp|)] + b1, jmp);
    NoneInTwo([TestInstr(cs, 1 + |b1| + |jmp|)] + b1 + jmp, b2);
  }

  lemma NoneInTestedRep(cs: Charset, b: seq<Instr>)
    requires NoEntries(b)
    ensures NoEntries(TestedRep(cs, b))
  {
    var x, y := TestInstr(cs, 2 + |b|), IJmp(-(1 + |b|));
    NoneInTest(cs, 2 + |b|);
    NoneInTwo([x], b);
    NoneInTwo([x] + b, [y]);
    assert TestedRep(cs, b) == [x] + b + [y];
  }

  /** Such a pattern is compiled without backtrack entries, in whatever place. */
  lemma {:induction false} DeterministicCode(rules: seq<Tree>, t: Tree, opt: bool, tt: Test, follow: Charset, da: nat)
    requires (Regular(t) || t.TTrue?) && Deterministic(t, follow)
    ensures NoEntries(Gen(rules, t, opt, tt, follow, da))
  {
    match t
    case TSeq(p1, p2) =>
      FirstIs(rules, p2, follow, da);
      if !NeedFollow(p1) { AnyFollow(p1, Starts(p2, follow), FULL); }
      DeterministicCode(rules, p1, false, tt, SeqFollow(rules, p1, p2, follow, da), da);
      DeterministicCode(rules, p2, opt, SeqTest(rules, p1, tt, da), follow, da);
    case TChoice(p1, p2) =>
      FirstIs(rules, p1, FULL, da);
      FirstIs(rules, p2, follow, da);
      var f1 := GetFirst(rules, p1, FULL, da);
      DeterministicCode(rules, p1, false, Protection(f1.cs, false), follow, da);
      DeterministicCode(rules, p2, opt, NoTest, follow, da);
      NoneInTestedChoice(f1.cs, Gen(rules, p1, false, Protection(f1.cs, false), follow, da), p2.TTrue?,
                         Gen(rules, p2, opt, NoTest, follow, da));
    case TRep(b) =>
      if !IsCharPattern(b) {
        FirstIs(rules, b, FULL, da);
        var f := GetFirst(rules, b, FULL, da);
        DeterministicCode(rules, b, false, Protection(f.cs, false), FULL, da);
        NoneInTestedRep(f.cs, Gen(rules, b, false, Protection(f.cs, false), FULL, da));
      }
    case _ =>
  }

  // ----- calls in last position -----

  /** What leads to a return without open calls does so while calls are being corrected. */
  lemma {:induction false} RetKept(code: seq<Instr>, i: nat, ins: Instr, p: int, n: nat)
    requires i < |code| && code[i].IOpenCall? && ReachesRet(code, p, n)
    ensures ReachesRet(code[i := ins], p, n)
    decreases n
  {
    if !code[p].IRet? { RetKept(code, i, ins, p + code[p].off, n - 1); }
  }

  lemma {:induction false} RetEnds(code: seq<Instr>, p: int, n: nat) returns (t: int)
    requires ReachesRet(code, p, n)
    ensures ChainEnds(code, p, t) && IsRet(code, t)
    decreases n
  {
    if code[p].IRet? {
      t := p;
      assert Jumps(code, p, t, 0);
    } else {
      t := RetEnds(code, p + code[p].off, n - 1);
      var m: nat :| Jumps(code, p + code[p].off, t, m);
      assert Jumps(code, p, t, m + 1);
    }
  }

  /** Every open call with nothing but a return after it becomes a jump. */
  lemma {:induction false} TailCalls(code: seq<Instr>, from: nat, i: nat, starts: seq<nat>)
    requires from <= i && from <= |code| && StaysFrom(code, from) && forall r :: 0 <= r < |starts| ==> from <= starts[r]
    ensures var r := CorrectCalls(code, from, i, starts);
            |r| == |code| &&
            forall k :: i <= k < |code| && code[k].IOpenCall? && code[k].key < |starts| && LeadsToRet(code, k + 1) ==>
              r[k].IJmp?
    decreases |code| - i
  {
    if i < |code| {
      var open := code[i].IOpenCall? && code[i].key < |starts|;
      var code' := if open then code[i := FixedCall(code, from, i, starts[code[i].key])] else code;
      CorrectCallsSpec(code', from, i + 1, starts);
      TailCalls(code', from, i + 1, starts);
      if open {
        if LeadsToRet(code, i + 1) {
          var n: nat :| ReachesRet(code, i + 1, n);
          var t := RetEnds(code, i + 1, n);
          FinalTargetExact(code, from, i + 1, |code| - from);
        }
        forall k | i < k < |code| && code[k].IOpenCall? && LeadsToRet(code, k + 1) ensures LeadsToRet(code', k + 1) {
          var n: nat :| ReachesRet(code, k + 1, n);
          RetKept(code, i, code'[i], k + 1, n);
        }
      }
    }
  }

  /** No jump inside the rules leads before them. */
  lemma RawStays(g: Tree, da: nat)
    requires g.TGrammar? && Wf([], g)
    ensures StaysFrom(RawGrammar(g, da), 2)
    ensures forall r :: 0 <= r < |g.rules| ==> 2 <= RuleStarts(g, da)[r]
    ensures forall k :: 2 <= k < |RawGrammar(g, da)| && RawGrammar(g, da)[k].IOpenCall? ==>
              RawGrammar(g, da)[k].key < |g.rules|
  {
    RuleCodesClosed(g, |g.rules|, da);
    var raw, body := RawGrammar(g, da), RuleCodes(g, |g.rules|, da);
    forall p | 2 <= p < |raw|
      ensures raw[p].IJmp? ==> 2 <= p + raw[p].off
      ensures raw[p].IOpenCall? ==> raw[p].key < |g.rules|
    {
      assert raw[p] == body[p - 2] && InRange(body[p - 2], p - 2, |body|, |g.rules|);
    }
  }

  /** In a grammar, a call with nothing but a return after it is compiled as a jump. */
  lemma GrammarTailCalls(g: Tree, opt: bool, tt: Test, fl: Charset, da: nat, k: nat)
    requires g.TGrammar? && Wf([], g) && 2 <= k < |RawGrammar(g, da)|
    requires RawGrammar(g, da)[k].IOpenCall? && LeadsToRet(RawGrammar(g, da), k + 1)
    ensures var code := Gen([], g, opt, tt, fl, da);
            |code| == |RawGrammar(g, da)| && code[k].IJmp?
  {
    RawStays(g, da);
    TailCalls(RawGrammar(g, da), 2, 2, RuleStarts(g, da));
    hide RuleCodes, LeadsToRet, StaysFrom, CorrectCalls;
  }

  // ----- labels after the peephole pass -----

  ghost predicate EndsSomewhere(code: seq<Instr>, x: int) {
    exists t :: ChainEnds(code, x, t)
  }

  function Target(code: seq<Instr>, x: int): int {
    FinalTarget(code, x, |code|)
  }

  lemma TargetFound(code: seq<Instr>, x: int)
    ensures EndFound(code, x, Target(code, x))
  {
    FinalTargetExact(code, 0, x, |code|);
  }

  /** Following jumps does not change whether the chain ends. */
  lemma {:induction false} LaterEnds(code: seq<Instr>, x: int, y: int, n: nat)
    requires Jumps(code, x, y, n) && EndsSomewhere(code, y)
    ensures EndsSomewhere(code, x)
    decreases n
  {
    if n > 0 {
      LaterEnds(code, x + code[x].off, y, n - 1);
      var t :| ChainEnds(code, x + code[x].off, t);
      var m: nat :| Jumps(code, x + code[x].off, t, m);
      assert Jumps(code, x, t, m + 1);
      assert ChainEnds(code, x, t);
    }
  }

  /** The target that the search finds is no jump, unless the chain never ends. */
  lemma TargetEnds(code: seq<Instr>, x: int)
    ensures EndsSomewhere(code, Target(code, x)) || EndsSomewhere(code, x) ==> !IsJump(code, Target(code, x))
  {
    TargetFound(code, x);
    if EndsSomewhere(code, Target(code, x)) {
      var n := FinalTargetJumps(code, x, |code|);
      LaterEnds(code, x, Target(code, x), n);
    }
    if EndsSomewhere(code, x) {
      var t :| ChainEnds(code, x, t);
    }
  }

  lemma PlainEnds(code: seq<Instr>, x: int)
    requires !IsJump(code, x)
    ensures EndsSomewhere(code, x)
  {
    assert Jumps(code, x, x, 0);
    assert ChainEnds(code, x, x);
  }

  /** What one round does: only instruction `i` changes, and no jump comes up. */
  lemma RoundChanges(code: seq<Instr>, i: nat)
    requires i < |code|
    ensures var r := PeepAt(code, i);
            && |r| == |code| && (forall p :: 0 <= p < |code| && p != i ==> r[p] == code[p])
            && (!code[i].IJmp? ==> !r[i].IJmp?)
            && (!code[i].IJmp? ==> Leaves(r[i]) == Leaves(code[i]) && HasLabel(r[i]) == HasLabel(code[i]))
            && (r[i].IJmp? ==> code[i].IJmp? && r[i] == IJmp(Target(code, i) - i))
            && (code[i].IJmp? && !r[i].IJmp? ==> EndsSomewhere(code, i))
  {
    var r := PeepAt(code, i);
    if code[i].IJmp? && !r[i].IJmp? {
      var ft := Target(code, i);
      assert !IsJump(code, ft);
      PlainEnds(code, ft);
      var n := FinalTargetJumps(code, i, |code|);
      LaterEnds(code, i, ft, n);
    }
    hide FinalTarget;
  }

  /** A chain that ends after a round ended before it. */
  lemma {:induction false} EndedBefore(code: seq<Instr>, i: nat, x: int, t: int, n: nat)
    requires i < |code| && Jumps(PeepAt(code, i), x, t, n) && !IsJump(PeepAt(code, i), t)
    ensures EndsSomewhere(code, x)
    decreases n
  {
    var r := PeepAt(code, i);
    RoundChanges(code, i);
    hide PeepAt;
    if n == 0 {
      if x != i || !code[i].IJmp? { PlainEnds(code, x); }
    } else {
      EndedBefore(code, i, x + r[x].off, t, n - 1);
      if x == i {
        var m := FinalTargetJumps(code, i, |code|);
        LaterEnds(code, i, Target(code, i), m);
      } else {
        assert Jumps(code, x + code[x].off, x + code[x].off, 0);
        assert Jumps(code, x, x + code[x].off, 1);
        LaterEnds(code, x, x + code[x].off, 1);
      }
    }
  }

  lemma StillEnds(code: seq<Instr>, i: nat, x: int)
    requires i < |code| && EndsSomewhere(PeepAt(code, i), x)
    ensures EndsSomewhere(code, x)
  {
    var r := PeepAt(code, i);
    var t :| ChainEnds(r, x, t);
    var n: nat :| Jumps(r, x, t, n);
    EndedBefore(code, i, x, t, n);
  }

  /** The label of `p` is not on a jump, and a jump does not lead to an instruction that could stand in its place,
      unless the chain of jumps from there never ends. */
  ghost predicate Settled(code: seq<Instr>, p: nat)
    requires p < |code|
  {
    HasLabel(code[p]) && EndsSomewhere(code, p + code[p].off) ==>
      !IsJump(code, p + code[p].off) && (code[p].IJmp? ==> !LeavesAt(code, p + code[p].off))
  }

  predicate LeavesAt(code: seq<Instr>, q: int) {
    0 <= q < |code| && Leaves(code[q])
  }

  lemma StaysSettled(code: seq<Instr>, i: nat, p: nat)
    requires i < |code| && p < |code| && p != i && Settled(code, p)
    ensures Settled(PeepAt(code, i), p)
  {
    var r := PeepAt(code, i);
    RoundChanges(code, i);
    hide PeepAt;
    if HasLabel(r[p]) && EndsSomewhere(r, p + r[p].off) {
      StillEnds(code, i, p + r[p].off);
    }
    hide EndsSomewhere;
  }

  /** A round that relabels an instruction which is no jump. */
  lemma RelabelSettles(code: seq<Instr>, i: nat)
    requires i < |code| && HasLabel(code[i]) && !code[i].IJmp?
    ensures Settled(Relabel(code, i), i)
  {
    var r := Relabel(code, i);
    var t := Target(code, i + code[i].off);
    assert r[i].off == t - i && !r[i].IJmp?;
    if EndsSomewhere(r, t) {
      SameJumps(code, r, t);
      TargetEnds(code, i + code[i].off);
    }
  }

  lemma SameJumps(code: seq<Instr>, r: seq<Instr>, x: int)
    requires |r| == |code| && EndsSomewhere(r, x)
    requires forall p :: 0 <= p < |code| ==> (r[p] == code[p] || (!r[p].IJmp? && !code[p].IJmp?))
    ensures EndsSomewhere(code, x)
  {
    var t :| ChainEnds(r, x, t);
    var n: nat :| Jumps(r, x, t, n);
    SameChain(code, r, x, t, n);
    assert ChainEnds(code, x, t);
  }

  lemma {:induction false} SameChain(code: seq<Instr>, r: seq<Instr>, x: int, t: int, n: nat)
    requires |r| == |code| && Jumps(r, x, t, n)
    requires forall p :: 0 <= p < |code| ==> (r[p] == code[p] || (!r[p].IJmp? && !code[p].IJmp?))
    ensures Jumps(code, x, t, n)
    decreases n
  {
    if n > 0 { SameChain(code, r, x + r[x].off, t, n - 1); }
  }

  lemma RoundSettles(code: seq<Instr>, i: nat)
    requires i < |code|
    ensures Settled(PeepAt(code, i), i)
  {
    var r := PeepAt(code, i);
    if !code[i].IJmp? {
      if HasLabel(code[i]) { RelabelSettles(code, i); }
    } else {
      var ft := Target(code, i);
      if LeavesAt(code, ft) {
        if HasLabel(code[ft]) {
          var fft := Target(code, ft + code[ft].off);
          RelabelSettles(code[i := WithLabel(code[ft], fft - i)], i);
        }
      } else if EndsSomewhere(r, ft) {
        StillEnds(code, i, ft);
        TargetEnds(code, i);
      }
    }
  }

  /** After the pass no label is left on a jump whose chain ends, and no jump on an instruction that could
      replace it. */
  lemma {:induction false} PeepholeSettles(code: seq<Instr>, i: nat, p: nat)
    requires p < |code| && (p < i ==> Settled(code, p))
    ensures Settled(PeepFrom(code, i), p)
    decreases |code| - i
  {
    if i < |code| {
      if p < i { StaysSettled(code, i, p); }
      if p == i { RoundSettles(code, i); }
      PeepholeSettles(PeepAt(code, i), i + 1, p);
    }
  }
}
