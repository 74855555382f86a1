/** The analyses follow calls without a bound in the source.  For a grammar that the check passes they come to
    an end: some depth of calls is never exceeded, and with it or any larger one the compiled code is the same. */
module PegDepth {
  import opened Wrappers
  import opened PegTree
  import opened PegAnalysis
  import opened PegMachine
  import opened PegCode
  import opened PegCompiler
  import opened PegGrammar

  // ----- the recursions of the source end within `d` calls -----

  predicate CheckEnds(rules: seq<Tree>, t: Tree, pred: Check, d: nat)
    decreases d, t
  {
    match t
    case TAnd(b) => pred.Nofail? ==> CheckEnds(rules, b, pred, d)
    case TSeq(p1, p2) => CheckEnds(rules, p1, pred, d) &&
        (CheckAux(rules, p1, pred, d) ==> CheckEnds(rules, p2, pred, d))
    case TChoice(p1, p2) => CheckEnds(rules, p2, pred, d) &&
        (!CheckAux(rules, p2, pred, d) ==> CheckEnds(rules, p1, pred, d))
    case TGrammar(rs) => rs != [] && CheckEnds(rs, rs[0], pred, d)
    case TCall(r) => d > 0 && r < |rules| && CheckEnds(rules, rules[r], pred, d - 1)
    case _ => true
  }

  predicate FirstEnds(rules: seq<Tree>, t: Tree, d: nat)
    decreases d, t
  {
    match t
    case TChoice(p1, p2) => FirstEnds(rules, p1, d) && FirstEnds(rules, p2, d)
    case TSeq(p1, p2) =>
      CheckEnds(rules, p1, Nullable, d) && FirstEnds(rules, p1, d) &&
          (CheckAux(rules, p1, Nullable, d) ==> FirstEnds(rules, p2, d))
    case TRep(b) => FirstEnds(rules, b, d)
    case TAnd(b) => FirstEnds(rules, b, d)
    case TNot(b) => FirstEnds(rules, b, d)
    case TBehind(b, _) => FirstEnds(rules, b, d)
    case TGrammar(rs) => rs != [] && FirstEnds(rs, rs[0], d)
    case TCall(r) => d > 0 && r < |rules| && FirstEnds(rules, rules[r], d - 1)
    case _ => true
  }

  predicate HeadEnds(rules: seq<Tree>, t: Tree, d: nat)
    decreases d, t
  {
    match t
    case TAnd(b) => HeadEnds(rules, b, d)
    case TSeq(p1, p2) => CheckEnds(rules, p2, Nofail, d) && (CheckAux(rules, p2, Nofail, d) ==> HeadEnds(rules, p1, d))
    case TChoice(p1, p2) => HeadEnds(rules, p1, d) && (HeadFail(rules, p1, d) ==> HeadEnds(rules, p2, d))
    case TGrammar(rs) => rs != [] && HeadEnds(rs, rs[0], d)
    case TCall(r) => d > 0 && r < |rules| && HeadEnds(rules, rules[r], d - 1)
    case _ => true
  }

  lemma {:induction false} CheckSettled(rules: seq<Tree>, t: Tree, pred: Check, d: nat, d': nat)
    requires d <= d' && CheckEnds(rules, t, pred, d)
    ensures CheckEnds(rules, t, pred, d') && CheckAux(rules, t, pred, d') == CheckAux(rules, t, pred, d)
    decreases d, t
  {
    match t
    case TAnd(b) => if pred.Nofail? { CheckSettled(rules, b, pred, d, d'); }
    case TSeq(p1, p2) =>
      CheckSettled(rules, p1, pred, d, d');
      if CheckAux(rules, p1, pred, d) { CheckSettled(rules, p2, pred, d, d'); }
    case TChoice(p1, p2) =>
      CheckSettled(rules, p2, pred, d, d');
      if !CheckAux(rules, p2, pred, d) { CheckSettled(rules, p1, pred, d, d'); }
    case TGrammar(rs) => CheckSettled(rs, rs[0], pred, d, d');
    case TCall(r) => CheckSettled(rules, rules[r], pred, d - 1, d' - 1);
    case _ =>
  }

  lemma {:induction false} FirstSettled(rules: seq<Tree>, t: Tree, follow: Charset, d: nat, d': nat)
    requires d <= d' && FirstEnds(rules, t, d)
    ensures FirstEnds(rules, t, d') && GetFirst(rules, t, follow, d') == GetFirst(rules, t, follow, d)
    decreases d, t
  {
    match t
    case TChoice(p1, p2) =>
      FirstSettled(rules, p1, follow, d, d');
      FirstSettled(rules, p2, follow, d, d');
    case TSeq(p1, p2) =>
      CheckSettled(rules, p1, Nullable, d, d');
      FirstSettled(rules, p1, FULL, d, d');
      if CheckAux(rules, p1, Nullable, d) {
        FirstSettled(rules, p2, follow, d, d');
        FirstSettled(rules, p1, GetFirst(rules, p2, follow, d).cs, d, d');
      }
    case TRep(b) => FirstSettled(rules, b, follow, d, d');
    case TAnd(b) => FirstSettled(rules, b, follow, d, d');
    case TNot(b) => FirstSettled(rules, b, follow, d, d');
    case TBehind(b, _) => FirstSettled(rules, b, follow, d, d');
    case TGrammar(rs) => FirstSettled(rs, rs[0], follow, d, d');
    case TCall(r) => FirstSettled(rules, rules[r], follow, d - 1, d' - 1);
    case _ =>
  }

  lemma {:induction false} HeadSettled(rules: seq<Tree>, t: Tree, d: nat, d': nat)
    requires d <= d' && HeadEnds(rules, t, d)
    ensures HeadEnds(rules, t, d') && HeadFail(rules, t, d') == HeadFail(rules, t, d)
    decreases d, t
  {
    match t
    case TAnd(b) => HeadSettled(rules, b, d, d');
    case TSeq(p1, p2) =>
      CheckSettled(rules, p2, Nofail, d, d');
      if CheckAux(rules, p2, Nofail, d) { HeadSettled(rules, p1, d, d'); }
    case TChoice(p1, p2) =>
      HeadSettled(rules, p1, d, d');
      if HeadFail(rules, p1, d) { HeadSettled(rules, p2, d, d'); }
    case TGrammar(rs) => HeadSettled(rs, rs[0], d, d');
    case TCall(r) => HeadSettled(rules, rules[r], d - 1, d' - 1);
    case _ =>
  }

  /** All three end within `d` calls. */
  predicate AllEnd(rules: seq<Tree>, t: Tree, d: nat) {
    CheckEnds(rules, t, Nullable, d) && CheckEnds(rules, t, Nofail, d) && FirstEnds(rules, t, d)
  }

  // ----- what the check of a grammar guarantees -----

  lemma {:induction false} NofailIsNullable(rules: seq<Tree>, t: Tree, d: nat)
    requires CheckAux(rules, t, Nofail, d)
    ensures CheckAux(rules, t, Nullable, d)
    decreases d, t
  {
    match t
    case TSeq(p1, p2) => NofailIsNullable(rules, p1, d); NofailIsNullable(rules, p2, d);
    case TChoice(p1, p2) =>
      if CheckAux(rules, p2, Nofail, d) { NofailIsNullable(rules, p2, d); } else { NofailIsNullable(rules, p1, d); }
    case TGrammar(rs) => NofailIsNullable(rs, rs[0], d);
    case TCall(r) => NofailIsNullable(rules, rules[r], d - 1);
    case _ =>
  }

  /** A larger depth finds fewer patterns nullable. */
  lemma {:induction false} NullableDeeper(rules: seq<Tree>, t: Tree, d: nat, d': nat)
    requires d <= d' && CheckAux(rules, t, Nullable, d')
    ensures CheckAux(rules, t, Nullable, d)
    decreases d, t
  {
    match t
    case TSeq(p1, p2) => NullableDeeper(rules, p1, d, d'); NullableDeeper(rules, p2, d, d');
    case TChoice(p1, p2) =>
      if CheckAux(rules, p2, Nullable, d') { NullableDeeper(rules, p2, d, d'); }
          else { NullableDeeper(rules, p1, d, d'); }
    case TGrammar(rs) => if rs != [] { NullableDeeper(rs, rs[0], d, d'); }
    case TCall(r) => if d > 0 && r < |rules| { NullableDeeper(rules, rules[r], d - 1, d' - 1); }
    case _ =>
  }

  /** What is nullable at the depth of the check is answered as passing. */
  lemma {:induction false} NullableAnswered(rules: seq<Tree>, t: Tree, npassed: nat, nb: bool, da: nat, d: nat)
    requires npassed <= MAXRULES && VerifyRule(rules, t, npassed, nb, true, da).Passes?
    requires CheckAux(rules, t, Nullable, d) && d >= MAXRULES - npassed + da
    ensures VerifyRule(rules, t, npassed, nb, true, da).nb
    decreases MAXRULES - npassed, t
  {
    match t
    case TNot(b) => PendingKept(rules, b, npassed, da);
    case TAnd(b) => PendingKept(rules, b, npassed, da);
    case TRep(b) => PendingKept(rules, b, npassed, da);
    case TCall(r) => NullableAnswered(rules, rules[r], npassed + 1, nb, da, d - 1);
    case TSeq(p1, p2) =>
      NullableAnswered(rules, p1, npassed, false, da, d);
      NullableAnswered(rules, p2, npassed, nb, da, d);
    case TChoice(p1, p2) =>
      var nb2 := VerifyRule(rules, p1, npassed, nb, true, da).nb;
      if CheckAux(rules, p2, Nullable, d) {
        NullableAnswered(rules, p2, npassed, nb2, da, d);
      } else {
        NullableAnswered(rules, p1, npassed, nb, da, d);
        PendingKept(rules, p2, npassed, da);
      }
    case TGrammar(rs) => NullableDeeper(rules, t, da, d);
    case _ =>
  }

  /** On the grammars inside the pattern, without entering them, everything ends within `m` calls. */
  predicate SubsEnd(t: Tree, m: nat) {
    match t
    case TRep(b) => SubsEnd(b, m)
    case TSeq(p1, p2) => SubsEnd(p1, m) && SubsEnd(p2, m)
    case TChoice(p1, p2) => SubsEnd(p1, m) && SubsEnd(p2, m)
    case TNot(b) => SubsEnd(b, m)
    case TAnd(b) => SubsEnd(b, m)
    case TBehind(b, _) => SubsEnd(b, m)
    case TGrammar(rs) => AllEnd([], t, m) && HeadEnds([], t, m)
    case _ => true
  }

  /** The rules of a checked grammar, over sub-grammars that end within `m` calls. */
  ghost predicate Sound(rules: seq<Tree>, da: nat, m: nat) {
    Verified(rules, true, da) && da <= m &&
    forall k :: 0 <= k < |rules| ==> Wf(rules, rules[k]) && Built(rules[k], true, da) && SubsEnd(rules[k], m)
  }

  /** A part of a rule, used or not. */
  ghost predicate RulePart(rules: seq<Tree>, t: Tree, da: nat, m: nat) {
    Wf(rules, t) && Built(t, true, da) && SubsEnd(t, m) && forall r :: HasCall(t, r) ==> Used(rules, r)
  }

  lemma CalledPart(rules: seq<Tree>, r: nat, da: nat, m: nat)
    requires Sound(rules, da, m) && r < |rules|
    ensures RulePart(rules, rules[r], da, m)
    ensures Used(rules, r) ==> InBudget(rules, rules[r], MAXRULES, false, da)
  {
    forall q | HasCall(rules[r], q) ensures Used(rules, q) {}
  }

  lemma AllEndDeeper(rules: seq<Tree>, t: Tree, d: nat, d': nat)
    requires d <= d' && AllEnd(rules, t, d)
    ensures AllEnd(rules, t, d')
  {
    CheckSettled(rules, t, Nullable, d, d');
    CheckSettled(rules, t, Nofail, d, d');
    FirstSettled(rules, t, FULL, d, d');
  }

  /** Without calls only the sub-grammars matter. */
  lemma {:induction false} ClosedAllEnd(rules: seq<Tree>, t: Tree, m: nat, d: nat)
    requires NoCalls(t) && SubsEnd(t, m) && m <= d
    ensures AllEnd(rules, t, d)
  {
    match t
    case TRep(b) => ClosedAllEnd(rules, b, m, d);
    case TSeq(p1, p2) => ClosedAllEnd(rules, p1, m, d); ClosedAllEnd(rules, p2, m, d);
    case TChoice(p1, p2) => ClosedAllEnd(rules, p1, m, d); ClosedAllEnd(rules, p2, m, d);
    case TNot(b) => ClosedAllEnd(rules, b, m, d);
    case TAnd(b) => ClosedAllEnd(rules, b, m, d);
    case TBehind(b, _) => ClosedAllEnd(rules, b, m, d);
    case TGrammar(rs) => AllEndDeeper([], t, m, d);
    case _ =>
  }

  /** The recursions on a part of a rule end within the calls that the check has left. */
  lemma {:induction false} PartAllEnd(rules: seq<Tree>, t: Tree, budget: nat, nb: bool, da: nat, m: nat, d: nat)
    requires Sound(rules, da, m) && RulePart(rules, t, da, m) && InBudget(rules, t, budget, nb, da)
    requires d >= budget + m
    ensures AllEnd(rules, t, d)
    decreases budget, t
  {
    match t
    case TNot(b) => PartAllEnd(rules, b, budget, true, da, m, d);
    case TAnd(b) => PartAllEnd(rules, b, budget, true, da, m, d);
    case TRep(b) => PartAllEnd(rules, b, budget, true, da, m, d);
    case TSeq(p1, p2) =>
      PartAllEnd(rules, p1, budget, false, da, m, d);
      if CheckAux(rules, p1, Nofail, d) { NofailIsNullable(rules, p1, d); }
      if CheckAux(rules, p1, Nullable, d) {
        if budget <= MAXRULES { NullableAnswered(rules, p1, MAXRULES - budget, false, da, d); }
        PartAllEnd(rules, p2, budget, nb, da, m, d);
      }
    case TChoice(p1, p2) =>
      PartAllEnd(rules, p1, budget, nb, da, m, d);
      var nb2 := if budget <= MAXRULES then VerifyRule(rules, p1, MAXRULES - budget, nb, true, da).nb else nb;
      PartAllEnd(rules, p2, budget, nb2, da, m, d);
    case TBehind(b, _) => ClosedAllEnd(rules, b, m, d);
    case TCall(r) =>
      CalledPart(rules, r, da, m);
      var budget2 := if budget > MAXRULES then MAXRULES else budget - 1;
      PartAllEnd(rules, rules[r], budget2, if budget > MAXRULES then false else nb, da, m, d - 1);
    case TGrammar(rs) => AllEndDeeper([], t, m, d);
    case _ =>
  }

  /** A sequence asks whether its second part never fails, and that part may call any used rule. */
  lemma {:induction false} PartHeadEnds(rules: seq<Tree>, t: Tree, budget: nat, nb: bool, da: nat, m: nat, d: nat)
    requires Sound(rules, da, m) && RulePart(rules, t, da, m) && InBudget(rules, t, budget, nb, da)
    requires d >= budget + MAXRULES + 1 + m
    ensures HeadEnds(rules, t, d)
    decreases budget, t
  {
    match t
    case TAnd(b) => PartHeadEnds(rules, b, budget, true, da, m, d);
    case TSeq(p1, p2) =>
      PartAllEnd(rules, p2, MAXRULES + 1, nb, da, m, d);
      PartHeadEnds(rules, p1, budget, false, da, m, d);
    case TChoice(p1, p2) =>
      PartHeadEnds(rules, p1, budget, nb, da, m, d);
      var nb2 := if budget <= MAXRULES then VerifyRule(rules, p1, MAXRULES - budget, nb, true, da).nb else nb;
      PartHeadEnds(rules, p2, budget, nb2, da, m, d);
    case TCall(r) =>
      CalledPart(rules, r, da, m);
      var budget2 := if budget > MAXRULES then MAXRULES else budget - 1;
      PartHeadEnds(rules, rules[r], budget2, if budget > MAXRULES then false else nb, da, m, d - 1);
    case TGrammar(rs) => HeadSettled([], t, m, d);
    case _ =>
  }

  function Max(a: nat, b: nat): (m: nat)
    ensures m >= a && m >= b
  {
    if a < b then b else a
  }

  lemma {:induction false} SubsEndDeeper(t: Tree, m: nat, m': nat)
    requires SubsEnd(t, m) && m <= m'
    ensures SubsEnd(t, m')
  {
    match t
    case TRep(b) => SubsEndDeeper(b, m, m');
    case TSeq(p1, p2) => SubsEndDeeper(p1, m, m'); SubsEndDeeper(p2, m, m');
    case TChoice(p1, p2) => SubsEndDeeper(p1, m, m'); SubsEndDeeper(p2, m, m');
    case TNot(b) => SubsEndDeeper(b, m, m');
    case TAnd(b) => SubsEndDeeper(b, m, m');
    case TBehind(b, _) => SubsEndDeeper(b, m, m');
    case TGrammar(rs) => AllEndDeeper([], t, m, m'); HeadSettled([], t, m, m');
    case _ =>
  }

  /** A depth for the grammars inside a pattern. */
  lemma {:induction false} SubsBound(rules: seq<Tree>, t: Tree, da: nat) returns (m: nat)
    requires Built(t, true, da) && Wf(rules, t)
    ensures SubsEnd(t, m)
    decreases t, 0
  {
    m := 0;
    match t {
    case TRep(b) => m := SubsBound(rules, b, da);
    case TSeq(p1, p2) =>
      var m1 := SubsBound(rules, p1, da);
      var m2 := SubsBound(rules, p2, da);
      m := Larger(p1, p2, m1, m2);
    case TChoice(p1, p2) =>
      var m1 := SubsBound(rules, p1, da);
      var m2 := SubsBound(rules, p2, da);
      m := Larger(p1, p2, m1, m2);
    case TNot(b) => m := SubsBound(rules, b, da);
    case TAnd(b) => m := SubsBound(rules, b, da);
    case TBehind(b, _) => m := SubsBound(rules, b, da);
    case TGrammar(rs) =>
      var m0 := RulesBound(t, |rs|, da);
      GrammarEnds(rs, da, m0);
      m := 2 * MAXRULES + 1 + m0;
    case _ =>
    }
  }

  lemma Larger(p1: Tree, p2: Tree, m1: nat, m2: nat) returns (m: nat)
    requires SubsEnd(p1, m1) && SubsEnd(p2, m2)
    ensures SubsEnd(p1, m) && SubsEnd(p2, m)
  {
    m := Max(m1, m2);
    SubsEndDeeper(p1, m1, m);
    SubsEndDeeper(p2, m2, m);
  }

  lemma {:induction false} RulesBound(g: Tree, n: nat, da: nat) returns (m: nat)
    requires g.TGrammar? && n <= |g.rules|
    requires forall k :: 0 <= k < |g.rules| ==> Wf(g.rules, g.rules[k]) && Built(g.rules[k], true, da)
    ensures da <= m && forall k :: 0 <= k < n ==> SubsEnd(g.rules[k], m)
    decreases g, 0, n
  {
    if n == 0 {
      m := da;
    } else {
      var m1 := RulesBound(g, n - 1, da);
      var m2 := SubsBound(g.rules, g.rules[n - 1], da);
      m := Max(m1, m2);
      forall k | 0 <= k < n ensures SubsEnd(g.rules[k], m) {
        SubsEndDeeper(g.rules[k], if k < n - 1 then m1 else m2, m);
      }
    }
  }

  lemma GrammarEnds(rs: seq<Tree>, da: nat, m: nat)
    requires rs != [] && Sound(rs, da, m)
    ensures AllEnd([], TGrammar(rs), 2 * MAXRULES + 1 + m) && HeadEnds([], TGrammar(rs), 2 * MAXRULES + 1 + m)
  {
    var d := 2 * MAXRULES + 1 + m;
    CalledPart(rs, 0, da, m);
    PartAllEnd(rs, rs[0], MAXRULES, false, da, m, d);
    PartHeadEnds(rs, rs[0], MAXRULES, false, da, m, d);
  }

  // ----- the code settles -----

  ghost predicate LenSettled(rules: seq<Tree>, t: Tree, d: nat) {
    forall d' :: d <= d' ==> FixedLen(rules, t, d') == FixedLen(rules, t, d)
  }

  lemma {:induction false} LenDeeper(rules: seq<Tree>, t: Tree, d: nat, d': nat)
    requires d <= d' && FixedLen(rules, t, d).Some?
    ensures FixedLen(rules, t, d') == FixedLen(rules, t, d)
    decreases d, t
  {
    match t
    case TSeq(p1, p2) => LenDeeper(rules, p1, d, d'); LenDeeper(rules, p2, d, d');
    case TChoice(p1, p2) => LenDeeper(rules, p1, d, d'); LenDeeper(rules, p2, d, d');
    case TGrammar(rs) => LenDeeper(rs, rs[0], d, d');
    case TCall(r) => LenDeeper(rules, rules[r], d - 1, d' - 1);
    case _ =>
  }

  /** The length is found at some depth, or at none. */
  lemma LenSettles(rules: seq<Tree>, t: Tree) returns (d: nat)
    ensures LenSettled(rules, t, d)
  {
    d := 0;
    if d0 :| FixedLen(rules, t, d0).Some? {
      d := d0;
      forall d' | d <= d' ensures FixedLen(rules, t, d') == FixedLen(rules, t, d) { LenDeeper(rules, t, d, d'); }
    }
  }

  /** With `d` calls, or more, each analysis of each part has come to its end. */
  ghost predicate Settled(rules: seq<Tree>, t: Tree, d: nat)
    decreases t
  {
    AllEnd(rules, t, d) && HeadEnds(rules, t, d) && LenSettled(rules, t, d) &&
    match t
    case TRep(b) => Settled(rules, b, d)
    case TSeq(p1, p2) => Settled(rules, p1, d) && Settled(rules, p2, d)
    case TChoice(p1, p2) => Settled(rules, p1, d) && Settled(rules, p2, d)
    case TNot(b) => Settled(rules, b, d)
    case TAnd(b) => Settled(rules, b, d)
    case TBehind(b, _) => Settled(rules, b, d)
    case TGrammar(rs) => forall k :: 0 <= k < |rs| ==> Settled(rs, rs[k], d)
    case _ => true
  }

  lemma {:induction false} SettledDeeper(rules: seq<Tree>, t: Tree, d: nat, d': nat)
    requires Settled(rules, t, d) && d <= d'
    ensures Settled(rules, t, d')
    decreases t
  {
    hide AllEnd, HeadEnds;
    AllEndDeeper(rules, t, d, d');
    HeadSettled(rules, t, d, d');
    match t
    case TRep(b) => SettledDeeper(rules, b, d, d');
    case TSeq(p1, p2) => SettledDeeper(rules, p1, d, d'); SettledDeeper(rules, p2, d, d');
    case TChoice(p1, p2) => SettledDeeper(rules, p1, d, d'); SettledDeeper(rules, p2, d, d');
    case TNot(b) => SettledDeeper(rules, b, d, d');
    case TAnd(b) => SettledDeeper(rules, b, d, d');
    case TBehind(b, _) => SettledDeeper(rules, b, d, d');
    case TGrammar(rs) => forall k | 0 <= k < |rs| ensures Settled(rs, rs[k], d') { SettledDeeper(rs, rs[k], d, d'); }
    case _ =>
  }

  /** All ends, at some depth, but for the parts of the part. */
  lemma PartSettles(rules: seq<Tree>, t: Tree, da: nat, m: nat) returns (d: nat)
    requires Sound(rules, da, m) && RulePart(rules, t, da, m)
    ensures AllEnd(rules, t, d) && HeadEnds(rules, t, d) && LenSettled(rules, t, d)
  {
    var d0 := 2 * MAXRULES + 2 + m;
    PartAllEnd(rules, t, MAXRULES + 1, false, da, m, d0);
    PartHeadEnds(rules, t, MAXRULES + 1, false, da, m, d0);
    var d1 := LenSettles(rules, t);
    d := Max(d0, d1);
    AllEndDeeper(rules, t, d0, d);
    HeadSettled(rules, t, d0, d);
  }

  lemma {:induction false} Settles(rules: seq<Tree>, t: Tree, da: nat, m: nat) returns (d: nat)
    requires Sound(rules, da, m) && RulePart(rules, t, da, m)
    ensures Settled(rules, t, d)
    decreases t, 0
  {
    hide AllEnd, HeadEnds, LenSettled;
    var d0 := PartSettles(rules, t, da, m);
    d := d0;
    match t {
    case TRep(b) => var d1 := Settles(rules, b, da, m); d := JoinOne(rules, t, b, d0, d1);
    case TSeq(p1, p2) =>
      var d1 := Settles(rules, p1, da, m);
      var d2 := Settles(rules, p2, da, m);
      d := JoinTwo(rules, t, p1, p2, d0, d1, d2);
    case TChoice(p1, p2) =>
      var d1 := Settles(rules, p1, da, m);
      var d2 := Settles(rules, p2, da, m);
      d := JoinTwo(rules, t, p1, p2, d0, d1, d2);
    case TNot(b) => var d1 := Settles(rules, b, da, m); d := JoinOne(rules, t, b, d0, d1);
    case TAnd(b) => var d1 := Settles(rules, b, da, m); d := JoinOne(rules, t, b, d0, d1);
    case TBehind(b, _) => var d1 := Settles(rules, b, da, m); d := JoinOne(rules, t, b, d0, d1);
    case TGrammar(rs) =>
      var m0 := RulesBound(t, |rs|, da);
      var d1 := RulesSettle(t, |rs|, da, m0);
      d := Max(d0, d1);
      TopDeeper(rules, t, d0, d);
      forall k | 0 <= k < |rs| ensures Settled(rs, rs[k], d) { SettledDeeper(rs, rs[k], d1, d); }
    case _ =>
    }
  }

  lemma TopDeeper(rules: seq<Tree>, t: Tree, d: nat, d': nat)
    requires AllEnd(rules, t, d) && HeadEnds(rules, t, d) && LenSettled(rules, t, d) && d <= d'
    ensures AllEnd(rules, t, d') && HeadEnds(rules, t, d') && LenSettled(rules, t, d')
  {
    AllEndDeeper(rules, t, d, d');
    HeadSettled(rules, t, d, d');
  }

  lemma JoinOne(rules: seq<Tree>, t: Tree, b: Tree, d0: nat, d1: nat) returns (d: nat)
    requires AllEnd(rules, t, d0) && HeadEnds(rules, t, d0) && LenSettled(rules, t, d0) && Settled(rules, b, d1)
    ensures AllEnd(rules, t, d) && HeadEnds(rules, t, d) && LenSettled(rules, t, d) && Settled(rules, b, d)
  {
    d := Max(d0, d1);
    TopDeeper(rules, t, d0, d);
    SettledDeeper(rules, b, d1, d);
  }

  lemma JoinTwo(rules: seq<Tree>, t: Tree, p1: Tree, p2: Tree, d0: nat, d1: nat, d2: nat) returns (d: nat)
    requires AllEnd(rules, t, d0) && HeadEnds(rules, t, d0) && LenSettled(rules, t, d0)
    requires Settled(rules, p1, d1) && Settled(rules, p2, d2)
    ensures AllEnd(rules, t, d) && HeadEnds(rules, t, d) && LenSettled(rules, t, d)
    ensures Settled(rules, p1, d) && Settled(rules, p2, d)
  {
    var d' := JoinOne(rules, t, p1, d0, d1);
    d := Max(d', d2);
    TopDeeper(rules, t, d', d);
    SettledDeeper(rules, p1, d', d);
    SettledDeeper(rules, p2, d2, d);
  }

  lemma {:induction false} RulesSettle(g: Tree, n: nat, da: nat, m: nat) returns (d: nat)
    requires g.TGrammar? && n <= |g.rules| && Sound(g.rules, da, m)
    ensures forall k :: 0 <= k < n ==> Settled(g.rules, g.rules[k], d)
    decreases g, 0, n
  {
    d := 0;
    if n > 0 {
      var d1 := RulesSettle(g, n - 1, da, m);
      CalledPart(g.rules, n - 1, da, m);
      var d2 := Settles(g.rules, g.rules[n - 1], da, m);
      d := Max(d1, d2);
      forall k | 0 <= k < n ensures Settled(g.rules, g.rules[k], d) {
        SettledDeeper(g.rules, g.rules[k], if k < n - 1 then d1 else d2, d);
      }
    }
  }

  // ----- so the code does not depend on the depth -----

  /** What `codegen` asks about a part. */
  lemma AnswersSettled(rules: seq<Tree>, t: Tree, fl: Charset, d: nat, d': nat)
    requires Settled(rules, t, d) && d <= d'
    ensures GetFirst(rules, t, fl, d') == GetFirst(rules, t, fl, d) &&
            GetFirst(rules, t, FULL, d') == GetFirst(rules, t, FULL, d)
    ensures HeadFail(rules, t, d') == HeadFail(rules, t, d) && FixedLen(rules, t, d') == FixedLen(rules, t, d)
  {
    FirstSettled(rules, t, fl, d, d');
    FirstSettled(rules, t, FULL, d, d');
    HeadSettled(rules, t, d, d');
  }

  lemma {:induction false} GenSettled(rules: seq<Tree>, t: Tree, opt: bool, tt: Test, fl: Charset, d: nat, d': nat)
    requires Settled(rules, t, d) && d <= d'
    ensures Gen(rules, t, opt, tt, fl, d') == Gen(rules, t, opt, tt, fl, d)
    decreases t, 1
  {
    hide AllEnd, HeadEnds, LenSettled, GetFirst, HeadFail, FixedLen;
    match t
    case TSeq(p1, p2) =>
      AnswersSettled(rules, p1, fl, d, d');
      AnswersSettled(rules, p2, fl, d, d');
      GenSettled(rules, p1, false, tt, SeqFollow(rules, p1, p2, fl, d), d, d');
      GenSettled(rules, p2, opt, SeqTest(rules, p1, tt, d), fl, d, d');
    case TChoice(p1, p2) => ChoiceSettled(rules, p1, p2, opt, tt, fl, d, d');
    case TRep(b) =>
      AnswersSettled(rules, b, fl, d, d');
      GenSettled(rules, b, false, Protection(GetFirst(rules, b, FULL, d).cs, false), FULL, d, d');
      GenSettled(rules, b, false, NoTest, FULL, d, d');
    case TNot(b) =>
      AnswersSettled(rules, b, FULL, d, d');
      GenSettled(rules, b, false, NoTest, FULL, d, d');
    case TAnd(b) =>
      AnswersSettled(rules, b, FULL, d, d');
      GenSettled(rules, b, false, tt, FULL, d, d');
    case TBehind(b, _) => GenSettled(rules, b, false, NoTest, FULL, d, d');
    case TGrammar(rs) => GrammarSettled(rules, t, opt, tt, fl, d, d');
    case _ =>
  }

  lemma {:induction false} GrammarSettled(rules: seq<Tree>, g: Tree, opt: bool, tt: Test, fl: Charset, d: nat, d': nat)
    requires g.TGrammar? && d <= d' && forall j :: 0 <= j < |g.rules| ==> Settled(g.rules, g.rules[j], d)
    ensures Gen(rules, g, opt, tt, fl, d') == Gen(rules, g, opt, tt, fl, d)
    decreases g, 0, |g.rules| + 1
  {
    forall k | 0 <= k <= |g.rules| ensures RuleCodes(g, k, d') == RuleCodes(g, k, d) { RuleCodesSettled(g, k, d, d'); }
    assert RuleStarts(g, d') == RuleStarts(g, d);
    assert RawGrammar(g, d') == RawGrammar(g, d);
  }

  lemma {:induction false} ChoiceSettled(rules: seq<Tree>, p1: Tree, p2: Tree, opt: bool, tt: Test, fl: Charset, d: nat,
                                         d': nat)
    requires Settled(rules, p1, d) && Settled(rules, p2, d) && d <= d'
    ensures Gen(rules, TChoice(p1, p2), opt, tt, fl, d') == Gen(rules, TChoice(p1, p2), opt, tt, fl, d)
    decreases TChoice(p1, p2), 0
  {
    AnswersSettled(rules, p1, FULL, d, d');
    AnswersSettled(rules, p2, fl, d, d');
    var f1 := GetFirst(rules, p1, FULL, d);
    GenSettled(rules, p2, opt, NoTest, fl, d, d');
    if ChoiceByTest(rules, p1, p2, fl, d) {
      GenSettled(rules, p1, false, Protection(f1.cs, false), fl, d, d');
    } else if opt && p2.TTrue? {
      GenSettled(rules, p1, true, NoTest, FULL, d, d');
    } else {
      GenSettled(rules, p1, p2.TTrue?, Protection(f1.cs, f1.e), FULL, d, d');
    }
  }

  lemma {:induction false} RuleCodesSettled(g: Tree, k: nat, d: nat, d': nat)
    requires g.TGrammar? && k <= |g.rules| && d <= d'
    requires forall j :: 0 <= j < |g.rules| ==> Settled(g.rules, g.rules[j], d)
    ensures RuleCodes(g, k, d') == RuleCodes(g, k, d)
    decreases g, 0, k
  {
    if k > 0 {
      RuleCodesSettled(g, k - 1, d, d');
      GenSettled(g.rules, g.rules[k - 1], false, NoTest, FULL, d, d');
    }
  }

  lemma {:induction false} ClosedCallsNothing(t: Tree)
    requires NoCalls(t)
    ensures forall r :: !HasCall(t, r)
  {
    match t
    case TRep(b) => ClosedCallsNothing(b);
    case TSeq(p1, p2) => ClosedCallsNothing(p1); ClosedCallsNothing(p2);
    case TChoice(p1, p2) => ClosedCallsNothing(p1); ClosedCallsNothing(p2);
    case TNot(b) => ClosedCallsNothing(b);
    case TAnd(b) => ClosedCallsNothing(b);
    case TBehind(b, _) => ClosedCallsNothing(b);
    case _ =>
  }

  /** For a pattern whose grammars pass the check there is a depth of calls that no recursion of the analyses
      exceeds: with it, and with any larger one, the compiled code is the one that the source produces. */
  lemma CompiledSettles(t: Tree, da: nat) returns (n: nat)
    requires Wf([], t) && Built(t, true, da)
    ensures Settled([], t, n)
    ensures forall d :: n <= d ==> Compiled(t, d) == Compiled(t, n)
  {
    var m0 := SubsBound([], t, da);
    var m := Max(m0, da);
    SubsEndDeeper(t, m0, m);
    WfHasNoCalls(t);
    ClosedCallsNothing(t);
    n := Settles([], t, da, m);
    hide Settled;
    forall d | n <= d ensures Compiled(t, d) == Compiled(t, n) { GenSettled([], t, false, NoTest, FULL, n, d); }
  }
}
