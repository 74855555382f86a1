/** The checks a grammar must pass (`verifygrammar` in `lptree.c`) and what they guarantee:
    every match of an accepted grammar ends. */
module PegGrammar {
  import opened PegTree
  import opened PegAnalysis

  const MAXRULES := 250

  /** The answer of `verifyrule`: may the pattern be passed without advancing, or an error. */
  datatype Verdict = Passes(nb: bool) | LeftRecursive

  /** `verifyrule`.  `nb` is the answer pending from an enclosing choice or predicate.
      At a sub-grammar the source returns whether it is nullable and drops the pending answer
      (`keep` false); with `keep` the pending answer survives there too. */
  function VerifyRule(rules: seq<Tree>, t: Tree, npassed: nat, nb: bool, keep: bool, da: nat): Verdict
    requires npassed <= MAXRULES
    decreases MAXRULES - npassed, t
  {
    match t
    case TChar(_) => Passes(nb)
    case TSet(_) => Passes(nb)
    case TAny => Passes(nb)
    case TFalse => Passes(nb)
    case TTrue => Passes(true)
    case TBehind(_, _) => Passes(true)
    case TNot(b) => VerifyRule(rules, b, npassed, true, keep, da)
    case TAnd(b) => VerifyRule(rules, b, npassed, true, keep, da)
    case TRep(b) => VerifyRule(rules, b, npassed, true, keep, da)
    case TCall(r) =>
      if r >= |rules| || npassed >= MAXRULES then LeftRecursive
      else VerifyRule(rules, rules[r], npassed + 1, nb, keep, da)
    case TSeq(p1, p2) =>
      (match VerifyRule(rules, p1, npassed, false, keep, da)
       case LeftRecursive => LeftRecursive
       case Passes(b) => if b then VerifyRule(rules, p2, npassed, nb, keep, da) else Passes(nb))
    case TChoice(p1, p2) =>
      (match VerifyRule(rules, p1, npassed, nb, keep, da)
       case LeftRecursive => LeftRecursive
       case Passes(b) => VerifyRule(rules, p2, npassed, b, keep, da))
    case TGrammar(_) => Passes((keep && nb) || CheckAux(rules, t, Nullable, da))
  }

  /** `checkloops`: some repetition has a body that may match the empty string. */
  predicate CheckLoops(rules: seq<Tree>, t: Tree, da: nat)
    decreases t
  {
    match t
    case TRep(b) => CheckAux(rules, b, Nullable, da) || CheckLoops(rules, b, da)
    case TSeq(p1, p2) => CheckLoops(rules, p1, da) || CheckLoops(rules, p2, da)
    case TChoice(p1, p2) => CheckLoops(rules, p1, da) || CheckLoops(rules, p2, da)
    case TNot(b) => CheckLoops(rules, b, da)
    case TAnd(b) => CheckLoops(rules, b, da)
    case TBehind(b, _) => CheckLoops(rules, b, da)
    case _ => false
  }

  /** The pattern calls rule `r` of the enclosing grammar. */
  predicate HasCall(t: Tree, r: nat) {
    match t
    case TCall(q) => q == r
    case TRep(b) => HasCall(b, r)
    case TSeq(p1, p2) => HasCall(p1, r) || HasCall(p2, r)
    case TChoice(p1, p2) => HasCall(p1, r) || HasCall(p2, r)
    case TNot(b) => HasCall(b, r)
    case TAnd(b) => HasCall(b, r)
    case TBehind(b, _) => HasCall(b, r)
    case _ => false
  }

  predicate NoCalls(t: Tree) {
    match t
    case TCall(q) => false
    case TRep(b) => NoCalls(b)
    case TSeq(p1, p2) => NoCalls(p1) && NoCalls(p2)
    case TChoice(p1, p2) => NoCalls(p1) && NoCalls(p2)
    case TNot(b) => NoCalls(b)
    case TAnd(b) => NoCalls(b)
    case TBehind(b, _) => NoCalls(b)
    case _ => true
  }

  /** A rule has a key when it is initial or some rule calls it; others are not checked. */
  ghost predicate Used(rules: seq<Tree>, k: nat) {
    k == 0 || exists m :: 0 <= m < |rules| && HasCall(rules[m], k)
  }

  /** `verifygrammar` raises no error. */
  ghost predicate Verified(rules: seq<Tree>, keep: bool, da: nat) {
    forall k :: 0 <= k < |rules| && Used(rules, k) ==>
      VerifyRule(rules, rules[k], 0, false, keep, da).Passes? && !CheckLoops(rules, rules[k], da)
  }

  /** Every grammar in the pattern was verified when it was built, and look-behind bodies have no calls. */
  ghost predicate Built(t: Tree, keep: bool, da: nat)
    decreases t
  {
    match t
    case TRep(b) => Built(b, keep, da)
    case TSeq(p1, p2) => Built(p1, keep, da) && Built(p2, keep, da)
    case TChoice(p1, p2) => Built(p1, keep, da) && Built(p2, keep, da)
    case TNot(b) => Built(b, keep, da)
    case TAnd(b) => Built(b, keep, da)
    case TBehind(b, _) => Built(b, keep, da) && NoCalls(b)
    case TGrammar(rs) => rs != [] && Verified(rs, keep, da) && forall k :: 0 <= k < |rs| ==> Built(rs[k], keep, da)
    case _ => true
  }

  // ----- the answer of the check is right when pending answers are kept -----

  lemma {:induction false} PendingKept(rules: seq<Tree>, t: Tree, npassed: nat, da: nat)
    requires npassed <= MAXRULES
    ensures var v := VerifyRule(rules, t, npassed, true, true, da); v.Passes? ==> v.nb
    decreases MAXRULES - npassed, t
  {
    match t
    case TNot(b) => PendingKept(rules, b, npassed, da);
    case TAnd(b) => PendingKept(rules, b, npassed, da);
    case TRep(b) => PendingKept(rules, b, npassed, da);
    case TCall(r) => if r < |rules| && npassed < MAXRULES { PendingKept(rules, rules[r], npassed + 1, da); }
    case TSeq(p1, p2) => PendingKept(rules, p2, npassed, da);
    case TChoice(p1, p2) =>
      PendingKept(rules, p1, npassed, da);
      PendingKept(rules, p2, npassed, da);
    case _ =>
  }

  /** A checked pattern that matches without advancing is answered as passing. */
  lemma {:induction false} AnswerSound(rules: seq<Tree>, t: Tree, npassed: nat, nb: bool, da: nat, s: seq<Byte>, i: nat,
                                       d: nat)
    requires npassed <= MAXRULES && i <= |s|
    requires VerifyRule(rules, t, npassed, nb, true, da).Passes?
    requires Match(rules, t, s, i, d) == Ok(i)
    ensures VerifyRule(rules, t, npassed, nb, true, da).nb
    decreases MAXRULES - npassed, t
  {
    match t
    case TNot(b) => PendingKept(rules, b, npassed, da);
    case TAnd(b) => PendingKept(rules, b, npassed, da);
    case TRep(b) => PendingKept(rules, b, npassed, da);
    case TCall(r) => AnswerSound(rules, rules[r], npassed + 1, nb, da, s, i, d - 1);
    case TSeq(p1, p2) =>
      AnswerSound(rules, p1, npassed, false, da, s, i, d);
      AnswerSound(rules, p2, npassed, nb, da, s, i, d);
    case TChoice(p1, p2) =>
      if Match(rules, p1, s, i, d).Ok? {
        AnswerSound(rules, p1, npassed, nb, da, s, i, d);
        PendingKept(rules, p2, npassed, da);
      } else {
        AnswerSound(rules, p2, npassed, VerifyRule(rules, p1, npassed, nb, true, da).nb, da, s, i, d);
      }
    case TGrammar(rs) =>
      if !CheckAux(rules, t, Nullable, da) { NotNullableConsumes(rules, t, s, i, d, da); }
    case _ =>
  }

  // ----- every match ends -----

  /** What a part of a used rule satisfies. */
  ghost predicate Part(rules: seq<Tree>, t: Tree, da: nat) {
    Built(t, true, da) && !CheckLoops(rules, t, da) && Wf(rules, t) &&
    forall r :: HasCall(t, r) ==> Used(rules, r)
  }

  /** How much of the check is left: none of it constrains a part reached after advancing;
      otherwise the part passed the check after `MAXRULES - budget` calls. */
  ghost predicate InBudget(rules: seq<Tree>, t: Tree, budget: nat, nb: bool, da: nat) {
    budget == MAXRULES + 1 ||
    (budget <= MAXRULES && VerifyRule(rules, t, MAXRULES - budget, nb, true, da).Passes?)
  }

  /** A part of a verified grammar ends its match on every subject. */
  lemma {:induction false} PartEnds(g: Tree, t: Tree, s: seq<Byte>, i: nat, budget: nat, nb: bool, da: nat)
      returns (d: nat)
    requires i <= |s| && g.TGrammar? && Built(g, true, da) && Wf([], g) && t < g
    requires Part(g.rules, t, da) && InBudget(g.rules, t, budget, nb, da)
    ensures Match(g.rules, t, s, i, d) != Diverge
    decreases g, 0, |s| - i, budget, t
  {
    d := 0;
    match t {
    case TNot(b) => d := PartEnds(g, b, s, i, budget, true, da);
    case TAnd(b) => d := PartEnds(g, b, s, i, budget, true, da);
    case TRep(b) =>
      d := PartEnds(g, b, s, i, budget, true, da);
      var o := Match(g.rules, b, s, i, d);
      if o.Ok? {
        NotNullableConsumes(g.rules, b, s, i, d, da);
        var d2 := PartEnds(g, t, s, o.j, MAXRULES + 1, true, da);
        Deepen(g.rules, b, s, i, d, d2);
        Deepen(g.rules, t, s, o.j, d2, d);
        d := if d < d2 then d2 else d;
      }
    case TSeq(p1, p2) =>
      d := PartEnds(g, p1, s, i, budget, false, da);
      var o := Match(g.rules, p1, s, i, d);
      if o.Ok? {
        if o.j == i && budget <= MAXRULES {
          AnswerSound(g.rules, p1, MAXRULES - budget, false, da, s, i, d);
        }
        var d2 := PartEnds(g, p2, s, o.j, if o.j == i then budget else MAXRULES + 1, nb, da);
        Deepen(g.rules, p1, s, i, d, d2);
        Deepen(g.rules, p2, s, o.j, d2, d);
        d := if d < d2 then d2 else d;
      }
    case TChoice(p1, p2) =>
      d := PartEnds(g, p1, s, i, budget, nb, da);
      var nb2 := if budget <= MAXRULES then VerifyRule(g.rules, p1, MAXRULES - budget, nb, true, da).nb else nb;
      var d2 := PartEnds(g, p2, s, i, budget, nb2, da);
      Deepen(g.rules, p1, s, i, d, d2);
      Deepen(g.rules, p2, s, i, d2, d);
      d := if d < d2 then d2 else d;
    case TBehind(b, n) => if n <= i { d := ClosedEnds(g.rules, b, s, i - n, da); }
    case TCall(r) =>
      UsedRuleIsPart(g, r, da);
      var budget2 := if budget > MAXRULES then MAXRULES else budget - 1;
      d := PartEnds(g, g.rules[r], s, i, budget2, if budget > MAXRULES then false else nb, da);
      d := d + 1;
    case TGrammar(rs) => d := GrammarEnds(g.rules, t, s, i, da);
    case _ =>
    }
  }

  /** The rule of a call is a part that was checked from its start. */
  lemma UsedRuleIsPart(g: Tree, r: nat, da: nat)
    requires g.TGrammar? && Built(g, true, da) && Wf([], g) && r < |g.rules| && Used(g.rules, r)
    ensures Part(g.rules, g.rules[r], da) && InBudget(g.rules, g.rules[r], MAXRULES, false, da)
  {
    forall q | HasCall(g.rules[r], q) ensures Used(g.rules, q) {
    }
  }

  lemma Deepen(rules: seq<Tree>, t: Tree, s: seq<Byte>, i: nat, d: nat, d': nat)
    requires i <= |s| && Match(rules, t, s, i, d) != Diverge
    ensures d <= d' ==> Match(rules, t, s, i, d') == Match(rules, t, s, i, d)
  {
    if d <= d' { DepthIrrelevant(rules, t, s, i, d, d'); }
  }

  /** A pattern without calls of enclosing rules ends its match on every subject. */
  lemma {:induction false} ClosedEnds(rules: seq<Tree>, t: Tree, s: seq<Byte>, i: nat, da: nat) returns (d: nat)
    requires i <= |s| && NoCalls(t) && Built(t, true, da) && !CheckLoops(rules, t, da) && Wf(rules, t)
    ensures Match(rules, t, s, i, d) != Diverge
    decreases t, 1, |s| - i, 0, t
  {
    d := 0;
    match t {
    case TNot(b) => d := ClosedEnds(rules, b, s, i, da);
    case TAnd(b) => d := ClosedEnds(rules, b, s, i, da);
    case TRep(b) =>
      d := ClosedEnds(rules, b, s, i, da);
      var o := Match(rules, b, s, i, d);
      if o.Ok? {
        NotNullableConsumes(rules, b, s, i, d, da);
        var d2 := ClosedEnds(rules, t, s, o.j, da);
        Deepen(rules, b, s, i, d, d2);
        Deepen(rules, t, s, o.j, d2, d);
        d := if d < d2 then d2 else d;
      }
    case TSeq(p1, p2) =>
      d := ClosedEnds(rules, p1, s, i, da);
      var o := Match(rules, p1, s, i, d);
      if o.Ok? {
        var d2 := ClosedEnds(rules, p2, s, o.j, da);
        Deepen(rules, p1, s, i, d, d2);
        Deepen(rules, p2, s, o.j, d2, d);
        d := if d < d2 then d2 else d;
      }
    case TChoice(p1, p2) =>
      d := ClosedEnds(rules, p1, s, i, da);
      var d2 := ClosedEnds(rules, p2, s, i, da);
      Deepen(rules, p1, s, i, d, d2);
      Deepen(rules, p2, s, i, d2, d);
      d := if d < d2 then d2 else d;
    case TBehind(b, n) => if n <= i { d := ClosedEnds(rules, b, s, i - n, da); }
    case TGrammar(rs) => d := GrammarEnds(rules, t, s, i, da);
    case _ =>
    }
  }

  lemma {:induction false} GrammarEnds(rules: seq<Tree>, g: Tree, s: seq<Byte>, i: nat, da: nat) returns (d: nat)
    requires i <= |s| && g.TGrammar? && Built(g, true, da) && Wf(rules, g)
    ensures Match(rules, g, s, i, d) != Diverge
    decreases g, 0, |s| - i, MAXRULES + 2, g
  {
    UsedRuleIsPart(g, 0, da);
    d := PartEnds(g, g.rules[0], s, i, MAXRULES, false, da);
  }

  /** Every match of the pattern on every subject ends. */
  ghost predicate Ends(t: Tree) {
    forall s: seq<Byte>, i: nat :: i <= |s| ==> EndsAt(t, s, i)
  }

  ghost predicate EndsAt(t: Tree, s: seq<Byte>, i: nat)
    requires i <= |s|
  {
    exists d :: Match([], t, s, i, d) != Diverge
  }

  /** With pending answers kept, the checks guarantee that every match ends. */
  lemma KeptChecksSuffice(t: Tree, da: nat)
    requires Built(t, true, da) && Wf([], t) && !CheckLoops([], t, da)
    ensures Ends(t)
  {
    forall s: seq<Byte>, i: nat | i <= |s| ensures EndsAt(t, s, i) {
      WfHasNoCalls(t);
      var d := ClosedEnds([], t, s, i, da);
    }
  }

  lemma {:induction false} WfHasNoCalls(t: Tree)
    requires Wf([], t)
    ensures NoCalls(t)
  {
    match t
    case TRep(b) => WfHasNoCalls(b);
    case TSeq(p1, p2) => WfHasNoCalls(p1); WfHasNoCalls(p2);
    case TChoice(p1, p2) => WfHasNoCalls(p1); WfHasNoCalls(p2);
    case TNot(b) => WfHasNoCalls(b);
    case TAnd(b) => WfHasNoCalls(b);
    case TBehind(b, _) => WfHasNoCalls(b);
    case _ =>
  }

  // ----- the check of the source, which drops pending answers at sub-grammars -----

  /** The outermost grammars inside the pattern may match the empty string. */
  predicate TopNullable(t: Tree, da: nat) {
    match t
    case TRep(b) => TopNullable(b, da)
    case TSeq(p1, p2) => TopNullable(p1, da) && TopNullable(p2, da)
    case TChoice(p1, p2) => TopNullable(p1, da) && TopNullable(p2, da)
    case TNot(b) => TopNullable(b, da)
    case TAnd(b) => TopNullable(b, da)
    case TBehind(b, _) => TopNullable(b, da)
    case TGrammar(_) => CheckAux([], t, Nullable, da)
    case _ => true
  }

  predicate AllTopNullable(rules: seq<Tree>, da: nat) {
    forall k :: 0 <= k < |rules| ==> TopNullable(rules[k], da)
  }

  /** Every sub-grammar inside a rule may match the empty string. */
  predicate SubsNullable(t: Tree, da: nat)
    decreases t
  {
    match t
    case TRep(b) => SubsNullable(b, da)
    case TSeq(p1, p2) => SubsNullable(p1, da) && SubsNullable(p2, da)
    case TChoice(p1, p2) => SubsNullable(p1, da) && SubsNullable(p2, da)
    case TNot(b) => SubsNullable(b, da)
    case TAnd(b) => SubsNullable(b, da)
    case TBehind(b, _) => SubsNullable(b, da)
    case TGrammar(rs) => AllTopNullable(rs, da) && forall k :: 0 <= k < |rs| ==> SubsNullable(rs[k], da)
    case _ => true
  }

  lemma {:induction false} SameCheck(rules: seq<Tree>, t: Tree, npassed: nat, nb: bool, da: nat)
    requires npassed <= MAXRULES && TopNullable(t, da) && AllTopNullable(rules, da)
    ensures VerifyRule(rules, t, npassed, nb, false, da) == VerifyRule(rules, t, npassed, nb, true, da)
    decreases MAXRULES - npassed, t
  {
    match t
    case TNot(b) => SameCheck(rules, b, npassed, true, da);
    case TAnd(b) => SameCheck(rules, b, npassed, true, da);
    case TRep(b) => SameCheck(rules, b, npassed, true, da);
    case TCall(r) => if r < |rules| && npassed < MAXRULES { SameCheck(rules, rules[r], npassed + 1, nb, da); }
    case TSeq(p1, p2) =>
      SameCheck(rules, p1, npassed, false, da);
      SameCheck(rules, p2, npassed, nb, da);
    case TChoice(p1, p2) =>
      SameCheck(rules, p1, npassed, nb, da);
      SameCheck(rules, p2, npassed, true, da);
      SameCheck(rules, p2, npassed, false, da);
    case _ =>
  }

  lemma VerifiedIsKept(rules: seq<Tree>, da: nat)
    requires Verified(rules, false, da) && AllTopNullable(rules, da)
    ensures Verified(rules, true, da)
  {
    forall k | 0 <= k < |rules| { SameCheck(rules, rules[k], 0, false, da); }
  }

  lemma {:induction false} SourceBuiltIsKept(t: Tree, da: nat)
    requires Built(t, false, da) && SubsNullable(t, da)
    ensures Built(t, true, da)
    decreases t
  {
    match t
    case TRep(b) => SourceBuiltIsKept(b, da);
    case TSeq(p1, p2) => SourceBuiltIsKept(p1, da); SourceBuiltIsKept(p2, da);
    case TChoice(p1, p2) => SourceBuiltIsKept(p1, da); SourceBuiltIsKept(p2, da);
    case TNot(b) => SourceBuiltIsKept(b, da);
    case TAnd(b) => SourceBuiltIsKept(b, da);
    case TBehind(b, _) => SourceBuiltIsKept(b, da);
    case TGrammar(rs) =>
      forall k | 0 <= k < |rs| ensures Built(rs[k], true, da) { SourceBuiltIsKept(rs[k], da); }
      VerifiedIsKept(rs, da);
    case _ =>
  }

  /** A pattern that the source accepts ends every match when its sub-grammars are nullable. */
  lemma SourceChecksSuffice(t: Tree, da: nat)
    requires Built(t, false, da) && Wf([], t) && !CheckLoops([], t, da) && SubsNullable(t, da)
    ensures Ends(t)
  {
    SourceBuiltIsKept(t, da);
    KeptChecksSuffice(t, da);
  }

  /** Keeping pending answers only makes the check stricter. */
  lemma {:induction false} KeptIsStricter(rules: seq<Tree>, t: Tree, npassed: nat, nb: bool, nb': bool, da: nat)
    requires npassed <= MAXRULES && (nb ==> nb')
    requires VerifyRule(rules, t, npassed, nb', true, da).Passes?
    ensures var v := VerifyRule(rules, t, npassed, nb, false, da);
            v.Passes? && (v.nb ==> VerifyRule(rules, t, npassed, nb', true, da).nb)
    decreases MAXRULES - npassed, t
  {
    match t
    case TNot(b) => KeptIsStricter(rules, b, npassed, true, true, da);
    case TAnd(b) => KeptIsStricter(rules, b, npassed, true, true, da);
    case TRep(b) => KeptIsStricter(rules, b, npassed, true, true, da);
    case TCall(r) => KeptIsStricter(rules, rules[r], npassed + 1, nb, nb', da);
    case TSeq(p1, p2) =>
      KeptIsStricter(rules, p1, npassed, false, false, da);
      if VerifyRule(rules, p1, npassed, false, true, da).nb {
        KeptIsStricter(rules, p2, npassed, nb, nb', da);
        PendingKept(rules, p2, npassed, da);
      }
    case TChoice(p1, p2) =>
      KeptIsStricter(rules, p1, npassed, nb, nb', da);
      KeptIsStricter(rules, p2, npassed, VerifyRule(rules, p1, npassed, nb, false, da).nb,
                     VerifyRule(rules, p1, npassed, nb', true, da).nb, da);
    case _ =>
  }

  lemma {:induction false} KeptBuiltIsSource(t: Tree, da: nat)
    requires Built(t, true, da)
    ensures Built(t, false, da)
    decreases t
  {
    match t
    case TRep(b) => KeptBuiltIsSource(b, da);
    case TSeq(p1, p2) => KeptBuiltIsSource(p1, da); KeptBuiltIsSource(p2, da);
    case TChoice(p1, p2) => KeptBuiltIsSource(p1, da); KeptBuiltIsSource(p2, da);
    case TNot(b) => KeptBuiltIsSource(b, da);
    case TAnd(b) => KeptBuiltIsSource(b, da);
    case TBehind(b, _) => KeptBuiltIsSource(b, da);
    case TGrammar(rs) =>
      forall k | 0 <= k < |rs| ensures Built(rs[k], false, da) { KeptBuiltIsSource(rs[k], da); }
      forall k | 0 <= k < |rs| && Used(rs, k) ensures VerifyRule(rs, rs[k], 0, false, false, da).Passes? {
        KeptIsStricter(rs, rs[k], 0, false, false, da);
      }
    case _ =>
  }

  /** The only grammars inside the pattern are copies of `sub`. */
  predicate Embeds(t: Tree, sub: Tree) {
    match t
    case TRep(b) => Embeds(b, sub)
    case TSeq(p1, p2) => Embeds(p1, sub) && Embeds(p2, sub)
    case TChoice(p1, p2) => Embeds(p1, sub) && Embeds(p2, sub)
    case TNot(b) => Embeds(b, sub)
    case TAnd(b) => Embeds(b, sub)
    case TBehind(b, _) => Embeds(b, sub)
    case TGrammar(_) => t == sub
    case _ => true
  }

  /** A grammar over `sub` that the source accepts. */
  ghost predicate AcceptedOver(g: Tree, sub: Tree, da: nat) {
    g.TGrammar? && Built(g, false, da) && Wf([], g) &&
    forall k :: 0 <= k < |g.rules| ==> Embeds(g.rules[k], sub)
  }

  lemma {:induction false} EmbedsNullable(t: Tree, sub: Tree, da: nat)
    requires Embeds(t, sub) && sub.TGrammar? && CheckAux([], sub, Nullable, da)
    ensures TopNullable(t, da)
  {
    match t
    case TRep(b) => EmbedsNullable(b, sub, da);
    case TSeq(p1, p2) => EmbedsNullable(p1, sub, da); EmbedsNullable(p2, sub, da);
    case TChoice(p1, p2) => EmbedsNullable(p1, sub, da); EmbedsNullable(p2, sub, da);
    case TNot(b) => EmbedsNullable(b, sub, da);
    case TAnd(b) => EmbedsNullable(b, sub, da);
    case TBehind(b, _) => EmbedsNullable(b, sub, da);
    case _ =>
  }

  /** Over a sub-grammar checked with pending answers kept, so is the whole pattern. */
  lemma {:induction false} EmbedsKept(t: Tree, sub: Tree, da: nat)
    requires Embeds(t, sub) && Built(t, false, da) && Built(sub, true, da)
    ensures Built(t, true, da)
  {
    match t
    case TRep(b) => EmbedsKept(b, sub, da);
    case TSeq(p1, p2) => EmbedsKept(p1, sub, da); EmbedsKept(p2, sub, da);
    case TChoice(p1, p2) => EmbedsKept(p1, sub, da); EmbedsKept(p2, sub, da);
    case TNot(b) => EmbedsKept(b, sub, da);
    case TAnd(b) => EmbedsKept(b, sub, da);
    case TBehind(b, _) => EmbedsKept(b, sub, da);
    case _ =>
  }

  /** The grammar with the one rule  S <- !sub S. */
  function LoopOver(sub: Tree): Tree {
    TGrammar([TSeq(TNot(sub), TCall(0))])
  }

  /** The source accepts that grammar if `sub` cannot match the empty string. */
  lemma LoopAccepted(sub: Tree, da: nat)
    requires sub.TGrammar? && Built(sub, true, da) && Wf([], sub) && !CheckAux([], sub, Nullable, da)
    ensures AcceptedOver(LoopOver(sub), sub, da)
  {
    var g := LoopOver(sub);
    var rule := TSeq(TNot(sub), TCall(0));
    assert g.rules == [rule];
    KeptBuiltIsSource(sub, da);
    assert Built(TNot(sub), false, da) && Built(TCall(0), false, da);
    assert Built(rule, false, da);
    assert Wf(g.rules, sub);
    assert Wf(g.rules, TNot(sub)) && Wf(g.rules, TCall(0));
    assert Wf(g.rules, rule);
    assert Embeds(TNot(sub), sub) && Embeds(TCall(0), sub);
    assert Embeds(rule, sub);
    assert VerifyRule(g.rules, sub, 0, true, false, da) == Passes(false);
    assert VerifyRule(g.rules, TNot(sub), 0, false, false, da) == Passes(false);
    assert VerifyRule(g.rules, rule, 0, false, false, da) == Passes(false);
    var call := TCall(0);
    assert !CheckLoops(g.rules, call, da) && !CheckLoops(g.rules, TNot(sub), da);
    assert Verified(g.rules, false, da);
  }

  /** On the empty subject that grammar recurses for ever if `sub` cannot match the empty string. */
  lemma {:induction false} LoopDiverges(sub: Tree, d: nat, da: nat)
    requires sub.TGrammar? && !CheckAux([], sub, Nullable, da)
    ensures Match([], LoopOver(sub), [], 0, d) == Diverge
  {
    var rules := LoopOver(sub).rules;
    var rule := TSeq(TNot(sub), TCall(0));
    assert rules[0] == rule;
    NotNullableConsumes(rules, sub, [], 0, d, da);
    if Match(rules, sub, [], 0, d).Fail? {
      assert Match(rules, TNot(sub), [], 0, d) == Ok(0);
      assert Match(rules, rule, [], 0, d) == Match(rules, TCall(0), [], 0, d);
      if d > 0 {
        LoopDiverges(sub, d - 1, da);
        assert Match([], LoopOver(sub), [], 0, d - 1) == Match(rules, rule, [], 0, d - 1);
        assert Match(rules, TCall(0), [], 0, d) == Match(rules, rule, [], 0, d - 1);
      }
    } else {
      assert Match(rules, TNot(sub), [], 0, d) == Diverge;
    }
    assert Match(rules, rule, [], 0, d) == Diverge;
  }

  /** A sub-grammar is safe to embed exactly when it may match the empty string: then every
      grammar over it that the source accepts ends all its matches; otherwise some accepted
      grammar over it is left recursive and never ends. */
  lemma SafeToEmbedIff(sub: Tree, da: nat)
    requires sub.TGrammar? && Built(sub, true, da) && Wf([], sub)
    ensures CheckAux([], sub, Nullable, da) <==> forall g :: AcceptedOver(g, sub, da) ==> Ends(g)
  {
    if CheckAux([], sub, Nullable, da) {
      forall g | AcceptedOver(g, sub, da) ensures Ends(g) {
        forall k | 0 <= k < |g.rules| ensures TopNullable(g.rules[k], da) && Built(g.rules[k], true, da) {
          EmbedsNullable(g.rules[k], sub, da);
          EmbedsKept(g.rules[k], sub, da);
        }
        VerifiedIsKept(g.rules, da);
        KeptChecksSuffice(g, da);
      }
    } else {
      var g := LoopOver(sub);
      LoopAccepted(sub, da);
      assert !EndsAt(g, [], 0) by {
        forall d ensures Match([], g, [], 0, d) == Diverge { LoopDiverges(sub, d, da); }
      }
      assert !Ends(g);
    }
  }

  /** The grammar  S <- !G S  with  G <- 'a'  is accepted, and its matches do not all end. */
  lemma LoopExample(da: nat)
    ensures var sub := TGrammar([TChar(97)]);
            AcceptedOver(LoopOver(sub), sub, da) && !Ends(LoopOver(sub))
  {
    var sub, rule := TGrammar([TChar(97)]), TChar(97);
    assert sub.rules == [rule] && Wf(sub.rules, rule) && Built(rule, true, da);
    assert VerifyRule(sub.rules, rule, 0, false, true, da) == Passes(false) && !CheckLoops(sub.rules, rule, da);
    assert Verified(sub.rules, true, da) && Built(sub, true, da);
    LoopAccepted(sub, da);
    var g := LoopOver(sub);
    forall d ensures Match([], g, [], 0, d) == Diverge { LoopDiverges(sub, d, da); }
    assert !EndsAt(g, [], 0);
  }

  /** The parts of the rules over `sub` that the check passes and that match without advancing. */
  ghost predicate MatchesEmpty(rules: seq<Tree>, t: Tree, npassed: nat, nb: bool, sub: Tree, da: nat, s: seq<Byte>,
                               i: nat, d: nat)
    requires npassed <= MAXRULES
  {
    Embeds(t, sub) && (forall k :: 0 <= k < |rules| ==> Embeds(rules[k], sub)) &&
    VerifyRule(rules, t, npassed, nb, false, da).Passes? && i <= |s| && Match(rules, t, s, i, d) == Ok(i)
  }

  ghost predicate AnswersRight(sub: Tree, da: nat) {
    forall rules, t, npassed: nat, nb, s, i: nat, d: nat ::
      npassed <= MAXRULES && MatchesEmpty(rules, t, npassed, nb, sub, da, s, i, d) ==>
      VerifyRule(rules, t, npassed, nb, false, da).nb
  }

  /** The answer of the source's check is right over a sub-grammar exactly when that may match the
      empty string: then every part that can match without advancing is answered as passing;
      otherwise the answer on `!sub` is wrong. */
  lemma AnswerRightIff(sub: Tree, da: nat)
    requires sub.TGrammar? && Built(sub, true, da) && Wf([], sub)
    ensures CheckAux([], sub, Nullable, da) <==> AnswersRight(sub, da)
  {
    if CheckAux([], sub, Nullable, da) {
      forall rules, t, npassed: nat, nb, s, i: nat, d: nat |
        npassed <= MAXRULES && MatchesEmpty(rules, t, npassed, nb, sub, da, s, i, d)
        ensures VerifyRule(rules, t, npassed, nb, false, da).nb
      {
        EmbedsNullable(t, sub, da);
        forall k | 0 <= k < |rules| { EmbedsNullable(rules[k], sub, da); }
        SameCheck(rules, t, npassed, nb, da);
        AnswerSound(rules, t, npassed, nb, da, s, i, d);
      }
    } else {
      var d := GrammarEnds([], sub, [], 0, da);
      NotNullableConsumes([], sub, [], 0, d, da);
      assert Match([], TNot(sub), [], 0, d) == Ok(0);
      assert Embeds(sub, sub) && VerifyRule([], sub, 0, true, false, da) == Passes(false);
      assert Embeds(TNot(sub), sub) && VerifyRule([], TNot(sub), 0, false, false, da) == Passes(false);
      assert MatchesEmpty([], TNot(sub), 0, false, sub, da, [], 0, d);
    }
  }
}
