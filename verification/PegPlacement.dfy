/** Where generated code sits inside a whole program, and single machine steps over it. */
module PegPlacement {
  import opened PegTree
  import opened PegAnalysis
  import opened PegMachine
  import opened PegCode

  /** From `p`, nothing but jumps leads to a return. */
  ghost predicate ReachesRet(code: seq<Instr>, p: int, n: nat)
    decreases n
  {
    0 <= p < |code| &&
    (code[p].IRet? || (code[p].IJmp? && n > 0 && ReachesRet(code, p + code[p].off, n - 1)))
  }

  ghost predicate LeadsToRet(code: seq<Instr>, p: int) {
    exists n: nat :: ReachesRet(code, p, n)
  }

  /** Instruction `p` is a corrected call of the rule at `target`. */
  ghost predicate IsCallOf(code: seq<Instr>, p: nat, target: int)
    requires p < |code|
  {
    code[p] == ICall(target - p) ||
    (code[p] == IJmp(target - p) && LeadsToRet(code, p + 1))
  }

  /** Instruction `p` is `ins`, except that an open call has been corrected. */
  ghost predicate Fits(code: seq<Instr>, p: nat, ins: Instr, starts: seq<nat>)
    requires p < |code|
  {
    if ins.IOpenCall? then ins.key < |starts| && IsCallOf(code, p, starts[ins.key])
    else code[p] == ins
  }

  /** The block sits in the program at `base`. */
  ghost predicate At(code: seq<Instr>, base: nat, block: seq<Instr>, starts: seq<nat>) {
    base + |block| <= |code| &&
    forall k :: 0 <= k < |block| ==> Fits(code, base + k, block[k], starts)
  }

  lemma AtSplit(code: seq<Instr>, base: nat, a: seq<Instr>, b: seq<Instr>, starts: seq<nat>)
    requires At(code, base, a + b, starts)
    ensures At(code, base, a, starts) && At(code, base + |a|, b, starts)
  {
    forall k | 0 <= k < |a| ensures Fits(code, base + k, a[k], starts) {
      assert (a + b)[k] == a[k];
    }
    forall k | 0 <= k < |b| ensures Fits(code, base + |a| + k, b[k], starts) {
      assert (a + b)[|a| + k] == b[k];
    }
  }

  lemma AtOne(code: seq<Instr>, base: nat, ins: Instr, starts: seq<nat>)
    requires At(code, base, [ins], starts) && !ins.IOpenCall?
    ensures base < |code| && code[base] == ins
  {
    assert [ins][0] == ins;
    assert Fits(code, base + 0, [ins][0], starts);
  }

  lemma AtAround(code: seq<Instr>, base: nat, a: seq<Instr>, x: Instr, b: seq<Instr>, y: Instr, c: seq<Instr>,
                 starts: seq<nat>)
    requires At(code, base, Around(a, x, b, y, c), starts) && !x.IOpenCall? && !y.IOpenCall?
    ensures At(code, base, a, starts)
    ensures base + |a| < |code| && code[base + |a|] == x
    ensures At(code, base + |a| + 1, b, starts)
    ensures base + |a| + 1 + |b| < |code| && code[base + |a| + 1 + |b|] == y
    ensures At(code, base + |a| + 2 + |b|, c, starts)
  {
    AtSplit(code, base, a + [x] + b + [y], c, starts);
    AtSplit(code, base, a + [x] + b, [y], starts);
    AtSplit(code, base, a + [x], b, starts);
    AtSplit(code, base, a, [x], starts);
    AtOne(code, base + |a|, x, starts);
    AtOne(code, base + |a| + 1 + |b|, y, starts);
  }

  /** A jump chain that ends in a return survives every change that spares all but open calls. */
  lemma {:induction false} ChainKept(code: seq<Instr>, code': seq<Instr>, p: int, limit: nat)
    requires |code'| == |code|
    requires forall k :: 0 <= k < |code| && !code[k].IOpenCall? ==> code'[k] == code[k]
    requires IsRet(code, FinalTarget(code, p, limit))
    ensures ReachesRet(code', p, limit)
    decreases limit
  {
    if 0 <= p < |code| && code[p].IJmp? && limit > 0 {
      ChainKept(code, code', p + code[p].off, limit - 1);
    }
  }

  /** Correcting calls touches nothing else, and makes every open call a call of its rule. */
  lemma {:induction false} CorrectCallsSpec(code: seq<Instr>, from: nat, i: nat, starts: seq<nat>)
    requires from <= |code|
    ensures var r := CorrectCalls(code, from, i, starts);
            (forall k :: 0 <= k < |code| && (k < i || !code[k].IOpenCall?) ==> r[k] == code[k]) &&
            (forall k :: i <= k < |code| && code[k].IOpenCall? && code[k].key < |starts| ==>
               IsCallOf(r, k, starts[code[k].key]))
    decreases |code| - i
  {
    if i < |code| {
      if code[i].IOpenCall? && code[i].key < |starts| {
        var code' := code[i := FixedCall(code, from, i, starts[code[i].key])];
        CorrectCallsSpec(code', from, i + 1, starts);
        var r := CorrectCalls(code', from, i + 1, starts);
        if code'[i].IJmp? {
          ChainKept(code, r, i + 1, |code| - from);
        }
      } else {
        CorrectCallsSpec(code, from, i + 1, starts);
      }
    }
  }

  /** A chain inside a block placed unchanged is a chain of the program. */
  lemma {:induction false} ChainPlaced(code: seq<Instr>, base: nat, block: seq<Instr>, p: int, n: nat)
    requires base + |block| <= |code|
    requires forall k :: 0 <= k < |block| ==> code[base + k] == block[k]
    requires ReachesRet(block, p, n)
    ensures ReachesRet(code, base + p, n)
    decreases n
  {
    if !block[p].IRet? {
      ChainPlaced(code, base, block, p + block[p].off, n - 1);
    }
  }

  /** One-character instructions: go on after the character, or fail. */
  lemma CharsetStep(code: seq<Instr>, s: seq<Byte>, base: nat, cs: Charset, tt: Test, i: nat, st: Stack,
                    starts: seq<nat>)
    requires i <= |s| && TestHolds(tt, s, i)
    requires At(code, base, CodeCharset(cs, tt), starts)
    ensures Step(code, s, Run(base, i, st)) == if Accepts(s, i, cs) then Run(base + 1, i + 1, st) else FailTo(st)
    ensures |CodeCharset(cs, tt)| == 1
  {
    AtOne(code, base, CodeCharset(cs, tt)[0], starts);
  }

  lemma CharStep(code: seq<Instr>, s: seq<Byte>, base: nat, c: Byte, tt: Test, i: nat, st: Stack, starts: seq<nat>)
    requires i <= |s| && TestHolds(tt, s, i)
    requires At(code, base, CodeChar(c, tt), starts)
    ensures Step(code, s, Run(base, i, st)) == if Accepts(s, i, {c}) then Run(base + 1, i + 1, st) else FailTo(st)
  {
    AtOne(code, base, CodeChar(c, tt)[0], starts);
  }

  /** The protecting test accepts the next character. */
  predicate TestHolds(tt: Test, s: seq<Byte>, i: nat) {
    match tt
    case NoTest => true
    case ByChar(c) => Accepts(s, i, {c})
    case BySet(cs) => Accepts(s, i, cs)
  }
}
