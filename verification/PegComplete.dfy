/** The checks of a grammar are exact: a grammar is refused as left recursive only if one of its rules leads back to
    itself without advancing, and as looping only if it repeats a pattern that may match the empty string; and what
    `checkaux` and `fixedlen` answer is the whole truth about a pattern whose predicates are left open. */
module PegComplete {
  import opened Wrappers
  import opened PegTree
  import opened PegAnalysis
  import opened PegGrammar
  import opened PegDepth

  // ----- left calls -----

  /** A match of `t` may call rule `r` before it has consumed anything: what comes first in a sequence is tried first,
      and what comes second if the first part may match the empty string. */
  predicate LeftCall(rules: seq<Tree>, t: Tree, r: nat, d: nat) {
    match t
    case TCall(q) => q == r
    case TSeq(p1, p2) => LeftCall(rules, p1, r, d) || (CheckAux(rules, p1, Nullable, d) && LeftCall(rules, p2, r, d))
    case TChoice(p1, p2) => LeftCall(rules, p1, r, d) || LeftCall(rules, p2, r, d)
    case TRep(b) => LeftCall(rules, b, r, d)
    case TNot(b) => LeftCall(rules, b, r, d)
    case TAnd(b) => LeftCall(rules, b, r, d)
    case _ => false
  }

  /** Left calls one after the other, the first one from `t`. */
  predicate Chain(rules: seq<Tree>, t: Tree, p: seq<nat>, d: nat)
    decreases |p|
  {
    p == [] || (p[0] < |rules| && LeftCall(rules, t, p[0], d) && Chain(rules, rules[p[0]], p[1..], d))
  }

  /** Rule `r` leads back to itself. */
  predicate Cycle(rules: seq<Tree>, r: nat, p: seq<nat>, d: nat) {
    r < |rules| && p != [] && Chain(rules, rules[r], p, d) && p[|p| - 1] == r
  }

  ghost predicate LeftRecursiveRule(rules: seq<Tree>, r: nat, d: nat) {
    exists p :: Cycle(rules, r, p, d)
  }

  ghost predicate AllWf(rules: seq<Tree>) {
    forall k :: 0 <= k < |rules| ==> Wf(rules, rules[k])
  }

  /** The sub-grammars found nullable at depth `da` are so at depth `d`. */
  predicate SubsKept(t: Tree, da: nat, d: nat) {
    match t
    case TRep(b) => SubsKept(b, da, d)
    case TSeq(p1, p2) => SubsKept(p1, da, d) && SubsKept(p2, da, d)
    case TChoice(p1, p2) => SubsKept(p1, da, d) && SubsKept(p2, da, d)
    case TNot(b) => SubsKept(b, da, d)
    case TAnd(b) => SubsKept(b, da, d)
    case TGrammar(_) => CheckAux([], t, Nullable, da) ==> CheckAux([], t, Nullable, d)
    case _ => true
  }

  predicate AllSubsKept(rules: seq<Tree>, da: nat, d: nat) {
    forall k :: 0 <= k < |rules| ==> SubsKept(rules[k], da, d)
  }

  lemma {:induction false} NoDeeper(t: Tree, da: nat, d: nat)
    requires d <= da
    ensures SubsKept(t, da, d)
  {
    match t
    case TRep(b) => NoDeeper(b, da, d);
    case TSeq(p1, p2) => NoDeeper(p1, da, d); NoDeeper(p2, da, d);
    case TChoice(p1, p2) => NoDeeper(p1, da, d); NoDeeper(p2, da, d);
    case TNot(b) => NoDeeper(b, da, d);
    case TAnd(b) => NoDeeper(b, da, d);
    case TGrammar(_) => if CheckAux([], t, Nullable, da) { NullableDeeper([], t, d, da); }
    case _ =>
  }

  /** What is answered as passing may match the empty string, unless the answer was pending. */
  lemma {:induction false} PassingIsNullable(rules: seq<Tree>, t: Tree, npassed: nat, nb: bool, keep: bool, da: nat,
                                             d: nat)
    requires npassed <= MAXRULES && SubsKept(t, da, d) && AllSubsKept(rules, da, d)
    requires VerifyRule(rules, t, npassed, nb, keep, da) == Passes(true)
    ensures nb || CheckAux(rules, t, Nullable, d)
    decreases MAXRULES - npassed, t
  {
    match t
    case TCall(r) =>
      PassingIsNullable(rules, rules[r], npassed + 1, nb, keep, da, d);
      if !nb && d > 0 { NullableDeeper(rules, rules[r], d - 1, d); }
    case TSeq(p1, p2) =>
      var v := VerifyRule(rules, p1, npassed, false, keep, da);
      if v.nb {
        PassingIsNullable(rules, p1, npassed, false, keep, da, d);
        PassingIsNullable(rules, p2, npassed, nb, keep, da, d);
      }
    case TChoice(p1, p2) =>
      var v := VerifyRule(rules, p1, npassed, nb, keep, da);
      if v.nb { PassingIsNullable(rules, p1, npassed, nb, keep, da, d); }
      PassingIsNullable(rules, p2, npassed, v.nb, keep, da, d);
    case _ =>
  }

  /** A rule is refused only after more left calls in a row than there may be rules. */
  lemma {:induction false} RefusedChain(rules: seq<Tree>, t: Tree, npassed: nat, nb: bool, keep: bool, da: nat, d: nat)
      returns (p: seq<nat>)
    requires npassed <= MAXRULES && Wf(rules, t) && AllWf(rules) && SubsKept(t, da, d) && AllSubsKept(rules, da, d)
    requires VerifyRule(rules, t, npassed, nb, keep, da).LeftRecursive?
    ensures Chain(rules, t, p, d) && |p| == MAXRULES - npassed + 1
    decreases MAXRULES - npassed, t
  {
    p := [];
    match t {
    case TNot(b) => p := RefusedChain(rules, b, npassed, true, keep, da, d);
    case TAnd(b) => p := RefusedChain(rules, b, npassed, true, keep, da, d);
    case TRep(b) => p := RefusedChain(rules, b, npassed, true, keep, da, d);
    case TCall(r) =>
      if npassed < MAXRULES { p := RefusedChain(rules, rules[r], npassed + 1, nb, keep, da, d); }
      assert ([r] + p)[1..] == p;
      p := [r] + p;
    case TSeq(p1, p2) =>
      var v := VerifyRule(rules, p1, npassed, false, keep, da);
      if v.LeftRecursive? {
        p := RefusedChain(rules, p1, npassed, false, keep, da, d);
      } else {
        PassingIsNullable(rules, p1, npassed, false, keep, da, d);
        p := RefusedChain(rules, p2, npassed, nb, keep, da, d);
      }
    case TChoice(p1, p2) =>
      var v := VerifyRule(rules, p1, npassed, nb, keep, da);
      if v.LeftRecursive? {
        p := RefusedChain(rules, p1, npassed, nb, keep, da, d);
      } else {
        p := RefusedChain(rules, p2, npassed, v.nb, keep, da, d);
      }
    case _ =>
    }
  }

  // ----- a long chain repeats a rule -----

  function Elems(p: seq<nat>): set<nat> {
    set x | x in p
  }

  lemma {:induction false} Pigeons(p: seq<nat>, n: nat)
    requires (forall i :: 0 <= i < |p| ==> p[i] < n) && |p| > n
    ensures exists i, j :: 0 <= i < j < |p| && p[i] == p[j]
  {
    if forall i, j :: 0 <= i < j < |p| ==> p[i] != p[j] {
      Distinct(p);
      CountBelow(Elems(p), n);
    }
  }

  lemma {:induction false} Distinct(p: seq<nat>)
    requires forall i, j :: 0 <= i < j < |p| ==> p[i] != p[j]
    ensures |Elems(p)| == |p|
  {
    if p != [] {
      var q := p[..|p| - 1];
      Distinct(q);
      assert p == q + [p[|p| - 1]] && p[|p| - 1] !in q;
      assert Elems(p) == Elems(q) + {p[|p| - 1]};
    }
  }

  lemma {:induction false} CountBelow(s: set<nat>, n: nat)
    requires forall x :: x in s ==> x < n
    ensures |s| <= n
  {
    if n == 0 {
      assert s == {};
    } else {
      CountBelow(s - {n - 1}, n - 1);
    }
  }

  lemma {:induction false} ChainBounds(rules: seq<Tree>, t: Tree, p: seq<nat>, d: nat)
    requires Chain(rules, t, p, d)
    ensures forall i :: 0 <= i < |p| ==> p[i] < |rules|
    decreases |p|
  {
    if p != [] {
      ChainBounds(rules, rules[p[0]], p[1..], d);
      forall i | 0 <= i < |p| ensures p[i] < |rules| {
        if i > 0 { assert p[i] == p[1..][i - 1]; }
      }
    }
  }

  lemma {:induction false} ChainFrom(rules: seq<Tree>, t: Tree, p: seq<nat>, i: nat, d: nat)
    requires Chain(rules, t, p, d) && i < |p|
    ensures p[i] < |rules| && Chain(rules, rules[p[i]], p[i + 1..], d)
    decreases |p|
  {
    if i > 0 {
      ChainFrom(rules, rules[p[0]], p[1..], i - 1, d);
      assert p[1..][i - 1] == p[i] && p[1..][i..] == p[i + 1..];
    }
  }

  lemma {:induction false} ChainUpTo(rules: seq<Tree>, t: Tree, p: seq<nat>, n: nat, d: nat)
    requires Chain(rules, t, p, d) && n <= |p|
    ensures Chain(rules, t, p[..n], d)
    decreases |p|
  {
    if n > 0 {
      ChainUpTo(rules, rules[p[0]], p[1..], n - 1, d);
      assert p[..n][1..] == p[1..][..n - 1];
    }
  }

  lemma {:induction false} ChainJoin(rules: seq<Tree>, t: Tree, p: seq<nat>, q: seq<nat>, d: nat)
    requires p != [] && Chain(rules, t, p, d) && p[|p| - 1] < |rules| && Chain(rules, rules[p[|p| - 1]], q, d)
    ensures Chain(rules, t, p + q, d)
    decreases |p|
  {
    assert (p + q)[1..] == p[1..] + q;
    if |p| > 1 {
      ChainJoin(rules, rules[p[0]], p[1..], q, d);
    } else {
      assert p[1..] + q == q;
    }
  }

  /** With more calls than rules, the chain comes back to a rule. */
  lemma ChainRepeats(rules: seq<Tree>, t: Tree, p: seq<nat>, d: nat) returns (i: nat)
    requires Chain(rules, t, p, d) && |p| > |rules|
    ensures i < |p| && LeftRecursiveRule(rules, p[i], d)
  {
    ChainBounds(rules, t, p, d);
    Pigeons(p, |rules|);
    var k, j :| 0 <= k < j < |p| && p[k] == p[j];
    i := k;
    ChainFrom(rules, t, p, i, d);
    var q := p[i + 1..][..j - i];
    ChainUpTo(rules, rules[p[i]], p[i + 1..], j - i, d);
    assert q[|q| - 1] == p[i];
    GoesRound(rules, p[i], q, d);
  }

  lemma GoesRound(rules: seq<Tree>, r: nat, q: seq<nat>, d: nat)
    requires r < |rules| && q != [] && Chain(rules, rules[r], q, d) && q[|q| - 1] == r
    ensures LeftRecursiveRule(rules, r, d)
  {
    assert Cycle(rules, r, q, d);
  }

  // ----- which rules and grammars are refused -----

  /** Rule `k` is `r`, or leads to it by left calls. */
  ghost predicate LeadsTo(rules: seq<Tree>, k: nat, r: nat, d: nat) {
    k < |rules| && (k == r || exists p :: Chain(rules, rules[k], p, d) && p != [] && p[|p| - 1] == r)
  }

  /** A refused rule leads, by left calls, to a rule that is left recursive. */
  lemma RefusedIsRecursive(rules: seq<Tree>, k: nat, keep: bool, da: nat, d: nat) returns (r: nat)
    requires AllWf(rules) && AllSubsKept(rules, da, d) && k < |rules| <= 250
    requires VerifyRule(rules, rules[k], 0, false, keep, da).LeftRecursive?
    ensures LeftRecursiveRule(rules, r, d) && LeadsTo(rules, k, r, d)
  {
    hide CheckAux, LeftRecursiveRule, LeftCall, Wf;
    var p := RefusedChain(rules, rules[k], 0, false, keep, da, d);
    var i := ChainRepeats(rules, rules[k], p, d);
    r := p[i];
    ChainUpTo(rules, rules[k], p, i + 1, d);
    assert p[..i + 1][i] == r;
  }

  /** A rule that passes with the pending answers kept starts no longer chain than the check has calls left. */
  lemma {:induction false} PassedChain(rules: seq<Tree>, t: Tree, npassed: nat, nb: bool, da: nat, d: nat, p: seq<nat>)
    requires npassed <= MAXRULES && d >= MAXRULES - npassed + da
    requires VerifyRule(rules, t, npassed, nb, true, da).Passes? && Chain(rules, t, p, d)
    ensures |p| <= MAXRULES - npassed
    decreases MAXRULES - npassed, t
  {
    if p != [] {
      match t {
      case TNot(b) => PassedChain(rules, b, npassed, true, da, d, p);
      case TAnd(b) => PassedChain(rules, b, npassed, true, da, d, p);
      case TRep(b) => PassedChain(rules, b, npassed, true, da, d, p);
      case TCall(r) => PassedChain(rules, rules[r], npassed + 1, nb, da, d, p[1..]);
      case TSeq(p1, p2) =>
        if LeftCall(rules, p1, p[0], d) {
          PassedChain(rules, p1, npassed, false, da, d, p);
        } else {
          NullableAnswered(rules, p1, npassed, false, da, d);
          PassedChain(rules, p2, npassed, nb, da, d, p);
        }
      case TChoice(p1, p2) =>
        if LeftCall(rules, p1, p[0], d) {
          PassedChain(rules, p1, npassed, nb, da, d, p);
        } else {
          PassedChain(rules, p2, npassed, VerifyRule(rules, p1, npassed, nb, true, da).nb, da, d, p);
        }
      case _ =>
      }
    }
  }

  /** A cycle can be gone through any number of times. */
  lemma {:induction false} Rounds(rules: seq<Tree>, r: nat, p: seq<nat>, d: nat, n: nat) returns (q: seq<nat>)
    requires Cycle(rules, r, p, d)
    ensures Chain(rules, rules[r], q, d) && |q| >= n
    decreases n
  {
    q := [];
    if n > 0 {
      q := Rounds(rules, r, p, d, n - 1);
      ChainJoin(rules, rules[r], p, q, d);
      q := p + q;
    }
  }

  /** A rule that leads to a left recursive one is refused, if pending answers are kept. */
  lemma RecursiveIsRefused(rules: seq<Tree>, k: nat, r: nat, da: nat, d: nat)
    requires LeadsTo(rules, k, r, d) && LeftRecursiveRule(rules, r, d) && d >= MAXRULES + da
    ensures VerifyRule(rules, rules[k], 0, false, true, da).LeftRecursive?
  {
    hide VerifyRule, CheckAux, Chain;
    var p :| Cycle(rules, r, p, d);
    var q := Rounds(rules, r, p, d, MAXRULES + 1);
    if k != r {
      var to :| Chain(rules, rules[k], to, d) && to != [] && to[|to| - 1] == r;
      ChainJoin(rules, rules[k], to, q, d);
      q := to + q;
    }
    if VerifyRule(rules, rules[k], 0, false, true, da).Passes? {
      PassedChain(rules, rules[k], 0, false, da, d, q);
    }
  }

  /** The check of a rule is exact, if pending answers are kept. */
  lemma RefusedIff(rules: seq<Tree>, k: nat, da: nat, d: nat)
    requires AllWf(rules) && AllSubsKept(rules, da, d) && k < |rules| <= 250 && d >= MAXRULES + da
    ensures VerifyRule(rules, rules[k], 0, false, true, da).LeftRecursive? <==>
            exists r :: LeadsTo(rules, k, r, d) && LeftRecursiveRule(rules, r, d)
  {
    hide VerifyRule, CheckAux, LeadsTo, LeftRecursiveRule, AllWf, AllSubsKept;
    if VerifyRule(rules, rules[k], 0, false, true, da).LeftRecursive? {
      var r := RefusedIsRecursive(rules, k, true, da, d);
    }
    forall r | LeadsTo(rules, k, r, d) && LeftRecursiveRule(rules, r, d)
      ensures VerifyRule(rules, rules[k], 0, false, true, da).LeftRecursive?
    {
      RecursiveIsRefused(rules, k, r, da, d);
    }
  }

  // ----- empty loops -----

  /** The pattern repeats `b`, outside its sub-grammars. */
  predicate Repeats(t: Tree, b: Tree) {
    match t
    case TRep(x) => b == x || Repeats(x, b)
    case TSeq(p1, p2) => Repeats(p1, b) || Repeats(p2, b)
    case TChoice(p1, p2) => Repeats(p1, b) || Repeats(p2, b)
    case TNot(x) => Repeats(x, b)
    case TAnd(x) => Repeats(x, b)
    case TBehind(x, _) => Repeats(x, b)
    case _ => false
  }

  ghost predicate EmptyLoop(rules: seq<Tree>, t: Tree, da: nat) {
    exists b :: Repeats(t, b) && CheckAux(rules, b, Nullable, da)
  }

  lemma {:induction false} LoopFound(rules: seq<Tree>, t: Tree, b: Tree, da: nat)
    requires Repeats(t, b) && CheckAux(rules, b, Nullable, da)
    ensures CheckLoops(rules, t, da)
  {
    match t
    case TRep(x) => if b != x { LoopFound(rules, x, b, da); }
    case TSeq(p1, p2) => if Repeats(p1, b) { LoopFound(rules, p1, b, da); } else { LoopFound(rules, p2, b, da); }
    case TChoice(p1, p2) => if Repeats(p1, b) { LoopFound(rules, p1, b, da); } else { LoopFound(rules, p2, b, da); }
    case TNot(x) => LoopFound(rules, x, b, da);
    case TAnd(x) => LoopFound(rules, x, b, da);
    case TBehind(x, _) => LoopFound(rules, x, b, da);
  }

  lemma {:induction false} FoundLoop(rules: seq<Tree>, t: Tree, da: nat) returns (b: Tree)
    requires CheckLoops(rules, t, da)
    ensures Repeats(t, b) && CheckAux(rules, b, Nullable, da)
  {
    match t
    case TRep(x) => if CheckAux(rules, x, Nullable, da) { b := x; } else { b := FoundLoop(rules, x, da); }
    case TSeq(p1, p2) =>
      if CheckLoops(rules, p1, da) { b := FoundLoop(rules, p1, da); } else { b := FoundLoop(rules, p2, da); }
    case TChoice(p1, p2) =>
      if CheckLoops(rules, p1, da) { b := FoundLoop(rules, p1, da); } else { b := FoundLoop(rules, p2, da); }
    case TNot(x) => b := FoundLoop(rules, x, da);
    case TAnd(x) => b := FoundLoop(rules, x, da);
    case TBehind(x, _) => b := FoundLoop(rules, x, da);
  }

  lemma LoopsIff(rules: seq<Tree>, t: Tree, da: nat)
    ensures CheckLoops(rules, t, da) <==> EmptyLoop(rules, t, da)
  {
    if CheckLoops(rules, t, da) { var b := FoundLoop(rules, t, da); }
    forall b | Repeats(t, b) && CheckAux(rules, b, Nullable, da) ensures CheckLoops(rules, t, da) {
      LoopFound(rules, t, b, da);
    }
  }

  // ----- whole grammars -----

  ghost predicate NoLeftRecursion(rules: seq<Tree>, d: nat) {
    forall r :: 0 <= r < |rules| ==> !LeftRecursiveRule(rules, r, d)
  }

  ghost predicate NoEmptyLoops(rules: seq<Tree>, da: nat) {
    forall k :: 0 <= k < |rules| && Used(rules, k) ==> !EmptyLoop(rules, rules[k], da)
  }

  /** A grammar without left recursion and without empty loops is accepted, by the source's check too. */
  lemma GoodAccepted(rules: seq<Tree>, keep: bool, da: nat)
    requires AllWf(rules) && |rules| <= 250 && NoLeftRecursion(rules, da) && NoEmptyLoops(rules, da)
    ensures Verified(rules, keep, da)
  {
    hide VerifyRule, CheckLoops, EmptyLoop, AllWf, LeftRecursiveRule, LeadsTo;
    forall k | 0 <= k < |rules| ensures SubsKept(rules[k], da, da) { NoDeeper(rules[k], da, da); }
    forall k | 0 <= k < |rules| && Used(rules, k)
      ensures VerifyRule(rules, rules[k], 0, false, keep, da).Passes? && !CheckLoops(rules, rules[k], da)
    {
      LoopsIff(rules, rules[k], da);
      if VerifyRule(rules, rules[k], 0, false, keep, da).LeftRecursive? {
        var r := RefusedIsRecursive(rules, k, keep, da, da);
        RecursiveInRange(rules, r, da);
      }
    }
  }

  lemma RecursiveInRange(rules: seq<Tree>, r: nat, d: nat)
    requires LeftRecursiveRule(rules, r, d)
    ensures r < |rules|
  {
  }

  lemma {:induction false} LeftCallIsCall(rules: seq<Tree>, t: Tree, r: nat, d: nat)
    requires LeftCall(rules, t, r, d)
    ensures HasCall(t, r)
  {
    match t
    case TSeq(p1, p2) => if LeftCall(rules, p1, r, d) { LeftCallIsCall(rules, p1, r, d); }
                         else { LeftCallIsCall(rules, p2, r, d); }
    case TChoice(p1, p2) => if LeftCall(rules, p1, r, d) { LeftCallIsCall(rules, p1, r, d); }
                            else { LeftCallIsCall(rules, p2, r, d); }
    case TRep(b) => LeftCallIsCall(rules, b, r, d);
    case TNot(b) => LeftCallIsCall(rules, b, r, d);
    case TAnd(b) => LeftCallIsCall(rules, b, r, d);
    case _ =>
  }

  lemma {:induction false} ChainIsUsed(rules: seq<Tree>, k: nat, p: seq<nat>, d: nat)
    requires k < |rules| && Chain(rules, rules[k], p, d) && p != []
    ensures Used(rules, p[|p| - 1])
    decreases |p|
  {
    if |p| == 1 {
      LeftCallIsCall(rules, rules[k], p[0], d);
    } else {
      ChainIsUsed(rules, p[0], p[1..], d);
    }
  }

  /** With pending answers kept, exactly those grammars are accepted. */
  lemma VerifiedIff(rules: seq<Tree>, da: nat, d: nat)
    requires AllWf(rules) && |rules| <= 250 && AllSubsKept(rules, da, d) && d >= MAXRULES + da
    ensures Verified(rules, true, da) <==> NoLeftRecursion(rules, d) && NoEmptyLoops(rules, da)
  {
    hide VerifyRule, CheckLoops, EmptyLoop, AllWf, LeadsTo, Chain, AllSubsKept, Used;
    forall k | 0 <= k < |rules| ensures CheckLoops(rules, rules[k], da) <==> EmptyLoop(rules, rules[k], da) {
      LoopsIff(rules, rules[k], da);
    }
    forall r | 0 <= r < |rules| && LeftRecursiveRule(rules, r, d) ensures !Verified(rules, true, da) {
      CycleRefused(rules, r, da, d);
    }
    if NoLeftRecursion(rules, d) {
      forall k | 0 <= k < |rules| ensures VerifyRule(rules, rules[k], 0, false, true, da).Passes? {
        if VerifyRule(rules, rules[k], 0, false, true, da).LeftRecursive? {
          var r := RefusedIsRecursive(rules, k, true, da, d);
        }
      }
    }
  }

  lemma CycleRefused(rules: seq<Tree>, r: nat, da: nat, d: nat)
    requires r < |rules| && LeftRecursiveRule(rules, r, d) && d >= MAXRULES + da
    ensures Used(rules, r) && VerifyRule(rules, rules[r], 0, false, true, da).LeftRecursive?
  {
    var p :| Cycle(rules, r, p, d);
    hide VerifyRule, Used;
    ChainIsUsed(rules, r, p, d);
    RecursiveIsRefused(rules, r, r, da, d);
  }

  /** So does the check of the source, if the sub-grammars may match the empty string. */
  lemma SourceVerifiedIff(rules: seq<Tree>, da: nat, d: nat)
    requires AllWf(rules) && |rules| <= 250 && AllSubsKept(rules, da, d) && d >= MAXRULES + da
    requires AllTopNullable(rules, da)
    ensures Verified(rules, false, da) <==> NoLeftRecursion(rules, d) && NoEmptyLoops(rules, da)
  {
    hide VerifyRule, CheckLoops, NoLeftRecursion, NoEmptyLoops, AllWf, AllSubsKept, Used;
    VerifiedIff(rules, da, d);
    forall k | 0 <= k < |rules|
      ensures VerifyRule(rules, rules[k], 0, false, false, da) == VerifyRule(rules, rules[k], 0, false, true, da)
    {
      SameCheck(rules, rules[k], 0, false, da);
    }
  }

  /** The grammars  S <- . S  and  S <- . S / 'a'. */
  lemma AdvancingAccepted(keep: bool, da: nat)
    ensures var loop := TSeq(TAny, TCall(0));
            Verified([loop], keep, da) && Verified([TChoice(loop, TChar(97))], keep, da)
  {
    var loop := TSeq(TAny, TCall(0));
    var rule := TChoice(loop, TChar(97));
    assert VerifyRule([loop], TAny, 0, false, keep, da) == Passes(false);
    assert VerifyRule([rule], TAny, 0, false, keep, da) == Passes(false);
    assert VerifyRule([rule], loop, 0, false, keep, da) == Passes(false);
    assert !CheckLoops([loop], TCall(0), da) && !CheckLoops([loop], TAny, da);
    assert !CheckLoops([rule], TCall(0), da) && !CheckLoops([rule], TAny, da) && !CheckLoops([rule], loop, da);
  }

  /** The depth at which the sub-grammars inside a rule have ended is deep enough. */
  lemma {:induction false} EndedIsKept(t: Tree, m: nat, d: nat)
    requires SubsEnd(t, m)
    ensures SubsKept(t, m, d)
  {
    match t
    case TRep(b) => EndedIsKept(b, m, d);
    case TSeq(p1, p2) => EndedIsKept(p1, m, d); EndedIsKept(p2, m, d);
    case TChoice(p1, p2) => EndedIsKept(p1, m, d); EndedIsKept(p2, m, d);
    case TNot(b) => EndedIsKept(b, m, d);
    case TAnd(b) => EndedIsKept(b, m, d);
    case TGrammar(_) => if d >= m { CheckSettled([], t, Nullable, m, d); } else { NoDeeper(t, m, d); }
    case _ =>
  }

  // ----- nullable and nofail -----

  /** The pattern with every predicate decided: for `nullable` they all pass, for `nofail` those that can fail do. */
  function Decided(t: Tree, pred: Check): Tree
    decreases t
  {
    match t
    case TNot(_) => if pred.Nullable? then TTrue else TFalse
    case TBehind(_, _) => if pred.Nullable? then TTrue else TFalse
    case TAnd(b) => if pred.Nullable? then TTrue else Decided(b, pred)
    case TRep(b) => TRep(Decided(b, pred))
    case TSeq(p1, p2) => TSeq(Decided(p1, pred), Decided(p2, pred))
    case TChoice(p1, p2) => TChoice(Decided(p1, pred), Decided(p2, pred))
    case TGrammar(rs) => TGrammar(seq(|rs|, i requires 0 <= i < |rs| => Decided(rs[i], pred)))
    case _ => t
  }

  function AllDecided(rules: seq<Tree>, pred: Check): seq<Tree> {
    seq(|rules|, i requires 0 <= i < |rules| => Decided(rules[i], pred))
  }

  /** `checkaux` answers whether the pattern with its predicates decided matches the empty subject. */
  lemma {:induction false} CheckIff(rules: seq<Tree>, t: Tree, pred: Check, d: nat)
    requires Match(AllDecided(rules, pred), Decided(t, pred), [], 0, d) != Diverge
    ensures CheckAux(rules, t, pred, d) <==> Match(AllDecided(rules, pred), Decided(t, pred), [], 0, d) == Ok(0)
    decreases d, t
  {
    var rs' := AllDecided(rules, pred);
    match t
    case TSeq(p1, p2) =>
      CheckIff(rules, p1, pred, d);
      if Match(rs', Decided(p1, pred), [], 0, d).Ok? { CheckIff(rules, p2, pred, d); }
    case TChoice(p1, p2) =>
      CheckIff(rules, p1, pred, d);
      if Match(rs', Decided(p1, pred), [], 0, d).Fail? { CheckIff(rules, p2, pred, d); }
    case TAnd(b) => if pred.Nofail? { CheckIff(rules, b, pred, d); }
    case TGrammar(rs) =>
      assert Decided(t, pred).rules == AllDecided(rs, pred);
      if rs != [] { CheckIff(rs, rs[0], pred, d); }
    case TCall(r) => CheckIff(rules, rules[r], pred, d - 1);
    case _ =>
  }

  // ----- fixedlen -----

  /** The pattern may consume `n` characters: repetitions any number, sequences a sum, choices what either side may. */
  predicate Consumes(rules: seq<Tree>, t: Tree, n: nat, d: nat)
    decreases d, t
  {
    match t
    case TChar(_) => n == 1
    case TSet(_) => n == 1
    case TAny => n == 1
    case TRep(_) => true
    case TSeq(p1, p2) => exists k :: 0 <= k <= n && Consumes(rules, p1, k, d) && Consumes(rules, p2, n - k, d)
    case TChoice(p1, p2) => Consumes(rules, p1, n, d) || Consumes(rules, p2, n, d)
    case TGrammar(rs) => rs == [] || Consumes(rs, rs[0], n, d)
    case TCall(r) => d == 0 || r >= |rules| || Consumes(rules, rules[r], n, d - 1)
    case _ => n == 0
  }

  lemma {:induction false} LenOnly(rules: seq<Tree>, t: Tree, n: nat, m: nat, d: nat)
    requires FixedLen(rules, t, d) == Some(n)
    ensures Consumes(rules, t, m, d) <==> m == n
    decreases d, t
  {
    match t
    case TSeq(p1, p2) =>
      var n1, n2 := FixedLen(rules, p1, d).value, FixedLen(rules, p2, d).value;
      forall k | 0 <= k <= m
        ensures Consumes(rules, p1, k, d) && Consumes(rules, p2, m - k, d) <==> k == n1 && m - k == n2
      {
        LenOnly(rules, p1, n1, k, d);
        LenOnly(rules, p2, n2, m - k, d);
      }
      if m == n { assert Consumes(rules, p1, n1, d) && Consumes(rules, p2, m - n1, d); }
    case TChoice(p1, p2) =>
      LenOnly(rules, p1, n, m, d);
      LenOnly(rules, p2, n, m, d);
    case TGrammar(rs) => LenOnly(rs, rs[0], n, m, d);
    case TCall(r) => LenOnly(rules, rules[r], n, m, d - 1);
    case _ =>
  }

  lemma {:induction false} SomeLength(rules: seq<Tree>, t: Tree, d: nat) returns (a: nat, b: nat)
    ensures Consumes(rules, t, a, d) && Consumes(rules, t, b, d)
    ensures FixedLen(rules, t, d) == None ==> a != b
    decreases d, t
  {
    a, b := 0, 1;
    match t {
    case TSeq(p1, p2) =>
      var a1, b1 := SomeLength(rules, p1, d);
      var a2, b2 := SomeLength(rules, p2, d);
      a := a1 + a2;
      assert a - a1 == a2;
      b := if a1 != b1 then b1 + a2 else b1 + b2;
      assert b - b1 == if a1 != b1 then a2 else b2;
    case TChoice(p1, p2) =>
      var a1, b1 := SomeLength(rules, p1, d);
      var a2, b2 := SomeLength(rules, p2, d);
      a := a1;
      b := if a1 != b1 then b1 else if a2 != a1 then a2 else b2;
      if FixedLen(rules, p1, d).Some? && FixedLen(rules, p2, d).Some? {
        LenOnly(rules, p1, FixedLen(rules, p1, d).value, a1, d);
        LenOnly(rules, p2, FixedLen(rules, p2, d).value, a2, d);
      }
    case TGrammar(rs) => if rs != [] { a, b := SomeLength(rs, rs[0], d); }
    case TCall(r) => if d > 0 && r < |rules| { a, b := SomeLength(rules, rules[r], d - 1); }
    case TRep(_) =>
    case TChar(_) => a := 1;
    case TSet(_) => a := 1;
    case TAny => a := 1;
    case _ => b := 0;
    }
  }

  /** Every match consumes `n` characters. */
  ghost predicate OnlyLength(rules: seq<Tree>, t: Tree, n: nat, d: nat) {
    forall m: nat :: Consumes(rules, t, m, d) <==> m == n
  }

  /** `fixedlen` finds the length exactly when there is only one. */
  lemma FixedLenIff(rules: seq<Tree>, t: Tree, n: nat, d: nat)
    ensures FixedLen(rules, t, d) == Some(n) <==> OnlyLength(rules, t, n, d)
  {
    hide Consumes, FixedLen;
    var a, b := SomeLength(rules, t, d);
    var l := FixedLen(rules, t, d);
    if l.Some? {
      forall m: nat ensures Consumes(rules, t, m, d) <==> m == l.value { LenOnly(rules, t, l.value, m, d); }
    }
  }
}
