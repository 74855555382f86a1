/** A pattern from its construction to the answer of the machine. */
module PegTheorem {
  import opened PegTree
  import opened PegAnalysis
  import opened PegMachine
  import opened PegCompiler
  import opened PegGrammar
  import opened PegBuild
  import opened PegDepth

  /** The machine halts on the compiled pattern, with the end of the match exactly when there is one;
      so it does on the pattern corrected before compilation. */
  ghost predicate Runs(t: Tree, s: seq<Byte>, i: nat, da: nat, o: Outcome)
    requires i <= |s|
  {
    o != Diverge && MachineResult(Compiled(t, da), s, i) == Answer(o) != Forever
  }

  /** A pattern whose grammars pass the check that keeps pending answers is matched as it means, on
      every subject from every position, compiled as it is or after `finalfix`. */
  lemma AcceptedPatternRuns(t: Tree, s: seq<Byte>, i: nat, da: nat) returns (d: nat)
    requires Wf([], t) && Built(t, true, da) && !CheckLoops([], t, da)
    requires i <= |s|
    ensures Runs(t, s, i, da, Match([], t, s, i, d))
    ensures Runs(FinalFix(t), s, i, da, Match([], t, s, i, d))
  {
    KeptChecksSuffice(t, da);
    assert EndsAt(t, s, i);
    d :| Match([], t, s, i, d) != Diverge;
    CompiledCorrect(t, da, s, i, d);
    FinalFixWf([], t);
    FinalFixSame([], t, s, i, d);
    CompiledCorrect(FinalFix(t), da, s, i, d);
  }

  /** The same for what the source's own check accepts, if the sub-grammars inside rules may match
      the empty string. */
  lemma SourcePatternRuns(t: Tree, s: seq<Byte>, i: nat, da: nat) returns (d: nat)
    requires Wf([], t) && Built(t, false, da) && !CheckLoops([], t, da) && SubsNullable(t, da)
    requires i <= |s|
    ensures Runs(t, s, i, da, Match([], t, s, i, d))
    ensures Runs(FinalFix(t), s, i, da, Match([], t, s, i, d))
  {
    SourceBuiltIsKept(t, da);
    d := AcceptedPatternRuns(t, s, i, da);
  }

  // ----- the code that the source produces -----

  lemma {:induction false} RotateBuilt(seqop: bool, t1: Tree, t2: Tree, da: nat)
    requires Built(t1, true, da) && Built(t2, true, da)
    ensures Built(Rotate(seqop, t1, t2), true, da)
    ensures NoCalls(t1) && NoCalls(t2) ==> NoCalls(Rotate(seqop, t1, t2))
    decreases t1
  {
    if IsOp(seqop, t1) { RotateBuilt(seqop, t1.p1, Op(seqop, t1.p2, t2), da); }
  }

  lemma {:induction false} FinalFixBuilt(t: Tree, da: nat)
    requires Built(t, true, da)
    ensures Built(FinalFix(t), true, da) && (NoCalls(t) ==> NoCalls(FinalFix(t)))
    decreases Size(t)
  {
    match t
    case TSeq(a, b) =>
      RotateSize(true, a, b);
      RotateBuilt(true, a, b, da);
      FinalFixBuilt(Rotate(true, a, b).p1, da);
      FinalFixBuilt(Rotate(true, a, b).p2, da);
    case TChoice(a, b) =>
      RotateSize(false, a, b);
      RotateBuilt(false, a, b, da);
      FinalFixBuilt(Rotate(false, a, b).p1, da);
      FinalFixBuilt(Rotate(false, a, b).p2, da);
    case TRep(b) => FinalFixBuilt(b, da);
    case TNot(b) => FinalFixBuilt(b, da);
    case TAnd(b) => FinalFixBuilt(b, da);
    case TBehind(b, _) => FinalFixBuilt(b, da);
    case _ =>
  }

  ghost predicate RunsAsMeant(t: Tree, code: seq<Instr>, s: seq<Byte>, i: nat)
    requires i <= |s|
  {
    exists d :: Match([], t, s, i, d) != Diverge &&
        MachineResult(code, s, i) == Answer(Match([], t, s, i, d)) != Forever
  }

  /** A pattern whose grammars pass the check has one compiled code, whatever depth of calls from some depth
      on the analyses are allowed, and that code runs as the pattern means on every subject. */
  lemma SourceCodeRuns(t: Tree, da: nat) returns (n: nat)
    requires Wf([], t) && Built(t, true, da) && !CheckLoops([], t, da)
    ensures Settled([], FinalFix(t), n)
    ensures forall d :: n <= d ==> Compiled(FinalFix(t), d) == Compiled(FinalFix(t), n)
    ensures forall s: seq<Byte>, i: nat :: i <= |s| ==> RunsAsMeant(t, Compiled(FinalFix(t), n), s, i)
  {
    FinalFixWf([], t);
    FinalFixBuilt(t, da);
    n := CompiledSettles(FinalFix(t), da);
    KeptChecksSuffice(t, da);
    hide Settled, Compiled, MachineResult, Built, Wf, CheckLoops;
    forall s: seq<Byte>, i: nat | i <= |s| ensures RunsAsMeant(t, Compiled(FinalFix(t), n), s, i) {
      assert EndsAt(t, s, i);
      var d :| Match([], t, s, i, d) != Diverge;
      FinalFixSame([], t, s, i, d);
      CompiledCorrect(FinalFix(t), n, s, i, d);
    }
  }
}
