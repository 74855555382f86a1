/** The static analyses of `lpcode.c` and their soundness with respect to `PegTree.Match`.

    The C functions follow a call into the called rule.  Here that descent is bounded by `da`,
    with the conservative answer at the bound, and every soundness lemma holds for every `da`;
    `PegDepth` shows where the bound stops mattering. */
module PegAnalysis {
  import opened Wrappers
  import opened PegTree

  datatype Check = Nullable | Nofail

  /** `checkaux`: may the pattern match the empty string, or can it never fail. */
  predicate CheckAux(rules: seq<Tree>, t: Tree, pred: Check, da: nat)
    decreases da, t
  {
    match t
    case TChar(_) => false
    case TSet(_) => false
    case TAny => false
    case TFalse => false
    case TRep(_) => true
    case TTrue => true
    case TNot(_) => pred.Nullable?
    case TBehind(_, _) => pred.Nullable?
    case TAnd(b) => pred.Nullable? || CheckAux(rules, b, pred, da)
    case TSeq(p1, p2) => CheckAux(rules, p1, pred, da) && CheckAux(rules, p2, pred, da)
    case TChoice(p1, p2) => CheckAux(rules, p2, pred, da) || CheckAux(rules, p1, pred, da)
    case TGrammar(rs) => if rs == [] then pred.Nullable? else CheckAux(rs, rs[0], pred, da)
    case TCall(r) =>
      if da == 0 || r >= |rules| then pred.Nullable? else CheckAux(rules, rules[r], pred, da - 1)
  }

  /** `fixedlen`: the number of characters every match consumes, if it is the same for all. */
  function FixedLen(rules: seq<Tree>, t: Tree, da: nat): Option<nat>
    decreases da, t
  {
    match t
    case TChar(_) => Some(1)
    case TSet(_) => Some(1)
    case TAny => Some(1)
    case TFalse => Some(0)
    case TTrue => Some(0)
    case TNot(_) => Some(0)
    case TAnd(_) => Some(0)
    case TBehind(_, _) => Some(0)
    case TRep(_) => None
    case TSeq(p1, p2) =>
      (match FixedLen(rules, p1, da)
       case None => None
       case Some(n1) =>
         match FixedLen(rules, p2, da)
         case None => None
         case Some(n2) => Some(n1 + n2))
    case TChoice(p1, p2) =>
      var n1 := FixedLen(rules, p1, da);
      if n1 != FixedLen(rules, p2, da) then None else n1
    case TGrammar(rs) => if rs == [] then None else FixedLen(rs, rs[0], da)
    case TCall(r) => if da == 0 || r >= |rules| then None else FixedLen(rules, rules[r], da - 1)
  }

  /** The first set of a pattern, and whether tests must not be built from it because the
      pattern may accept the end of the subject. */
  datatype First = First(cs: Charset, e: bool)

  /** `getfirst`: `follow` is the first set of what comes after the pattern. */
  function GetFirst(rules: seq<Tree>, t: Tree, follow: Charset, da: nat): First
    decreases da, t
  {
    match t
    case TChar(_) => First(CharsetOf(t), false)
    case TSet(_) => First(CharsetOf(t), false)
    case TAny => First(CharsetOf(t), false)
    case TTrue => First(follow, true)
    case TFalse => First({}, false)
    case TChoice(p1, p2) =>
      var f1 := GetFirst(rules, p1, follow, da);
      var f2 := GetFirst(rules, p2, follow, da);
      First(f1.cs + f2.cs, f1.e || f2.e)
    case TSeq(p1, p2) =>
      if !CheckAux(rules, p1, Nullable, da) then GetFirst(rules, p1, FULL, da)
      else
        var f2 := GetFirst(rules, p2, follow, da);
        var f1 := GetFirst(rules, p1, f2.cs, da);
        First(f1.cs, f1.e && f2.e)
    case TRep(b) => First(GetFirst(rules, b, follow, da).cs + follow, true)
    case TAnd(b) =>
      var f := GetFirst(rules, b, follow, da);
      First(f.cs * follow, f.e)
    case TNot(b) =>
      if IsCharPattern(b) then First(Complement(CharsetOf(b)), true) else First(follow, true)
    case TBehind(_, _) => First(follow, true)
    case TGrammar(rs) => if rs == [] then First(FULL, true) else GetFirst(rs, rs[0], follow, da)
    case TCall(r) =>
      if da == 0 || r >= |rules| then First(FULL, true)
      else GetFirst(rules, rules[r], follow, da - 1)
  }

  /** `headfail`: the pattern fails only depending on the next character. */
  predicate HeadFail(rules: seq<Tree>, t: Tree, da: nat)
    decreases da, t
  {
    match t
    case TChar(_) => true
    case TSet(_) => true
    case TAny => true
    case TFalse => true
    case TTrue => false
    case TRep(_) => false
    case TNot(_) => false
    case TBehind(_, _) => false
    case TAnd(b) => HeadFail(rules, b, da)
    case TSeq(p1, p2) => CheckAux(rules, p2, Nofail, da) && HeadFail(rules, p1, da)
    case TChoice(p1, p2) => HeadFail(rules, p1, da) && HeadFail(rules, p2, da)
    case TGrammar(rs) => rs != [] && HeadFail(rs, rs[0], da)
    case TCall(r) => da > 0 && r < |rules| && HeadFail(rules, rules[r], da - 1)
  }

  /** `needfollow`: code generation for the pattern uses its follow set. */
  predicate NeedFollow(t: Tree) {
    match t
    case TChoice(_, _) => true
    case TRep(_) => true
    case TSeq(_, p2) => NeedFollow(p2)
    case _ => false
  }

  /** What the constructors of patterns establish: calls name rules of the enclosing grammar,
      and a look-behind records the fixed length of its body. */
  ghost predicate Wf(rules: seq<Tree>, t: Tree)
    decreases t
  {
    match t
    case TRep(b) => Wf(rules, b)
    case TSeq(p1, p2) => Wf(rules, p1) && Wf(rules, p2)
    case TChoice(p1, p2) => Wf(rules, p1) && Wf(rules, p2)
    case TNot(b) => Wf(rules, b)
    case TAnd(b) => Wf(rules, b)
    case TBehind(b, n) => Wf(rules, b) && exists da :: FixedLen(rules, b, da) == Some(n)
    case TCall(r) => r < |rules|
    case TGrammar(rs) => rs != [] && forall k :: 0 <= k < |rs| ==> Wf(rs, rs[k])
    case _ => true
  }

  // ----- soundness -----

  /** A pattern that is not nullable consumes something whenever it matches. */
  lemma {:induction false} NotNullableConsumes(rules: seq<Tree>, t: Tree, s: seq<Byte>, i: nat, d: nat, da: nat)
    requires i <= |s| && !CheckAux(rules, t, Nullable, da)
    ensures Match(rules, t, s, i, d).Ok? ==> Match(rules, t, s, i, d).j > i
    decreases d, t, |s| - i
  {
    match t
    case TSeq(p1, p2) =>
      if !CheckAux(rules, p1, Nullable, da) {
        NotNullableConsumes(rules, p1, s, i, d, da);
      } else if Match(rules, p1, s, i, d).Ok? {
        NotNullableConsumes(rules, p2, s, Match(rules, p1, s, i, d).j, d, da);
      }
    case TChoice(p1, p2) =>
      NotNullableConsumes(rules, p1, s, i, d, da);
      NotNullableConsumes(rules, p2, s, i, d, da);
    case TGrammar(rs) => NotNullableConsumes(rs, rs[0], s, i, d, da);
    case TCall(r) =>
      if d > 0 { NotNullableConsumes(rules, rules[r], s, i, d - 1, da - 1); }
    case _ =>
  }

  /** A pattern classified as nofail never fails. */
  lemma {:induction false} NofailNeverFails(rules: seq<Tree>, t: Tree, s: seq<Byte>, i: nat, d: nat, da: nat)
    requires i <= |s| && CheckAux(rules, t, Nofail, da)
    ensures Match(rules, t, s, i, d) != Fail
    decreases d, t, |s| - i
  {
    match t
    case TRep(b) =>
      var o := Match(rules, b, s, i, d);
      if o.Ok? && o.j > i { NofailNeverFails(rules, t, s, o.j, d, da); }
    case TAnd(b) => NofailNeverFails(rules, b, s, i, d, da);
    case TSeq(p1, p2) =>
      NofailNeverFails(rules, p1, s, i, d, da);
      if Match(rules, p1, s, i, d).Ok? {
        NofailNeverFails(rules, p2, s, Match(rules, p1, s, i, d).j, d, da);
      }
    case TChoice(p1, p2) =>
      if CheckAux(rules, p2, Nofail, da) {
        NofailNeverFails(rules, p2, s, i, d, da);
      } else {
        NofailNeverFails(rules, p1, s, i, d, da);
      }
    case TGrammar(rs) => NofailNeverFails(rs, rs[0], s, i, d, da);
    case TCall(r) =>
      if d > 0 { NofailNeverFails(rules, rules[r], s, i, d - 1, da - 1); }
    case _ =>
  }

  /** Every match of a pattern of fixed length consumes exactly that many characters. */
  lemma {:induction false} FixedLenExact(rules: seq<Tree>, t: Tree, s: seq<Byte>, i: nat, d: nat, da: nat)
    requires i <= |s| && FixedLen(rules, t, da).Some?
    ensures Match(rules, t, s, i, d).Ok? ==> Match(rules, t, s, i, d).j == i + FixedLen(rules, t, da).value
    decreases d, t, |s| - i
  {
    match t
    case TSeq(p1, p2) =>
      FixedLenExact(rules, p1, s, i, d, da);
      if Match(rules, p1, s, i, d).Ok? {
        FixedLenExact(rules, p2, s, Match(rules, p1, s, i, d).j, d, da);
      }
    case TChoice(p1, p2) =>
      FixedLenExact(rules, p1, s, i, d, da);
      FixedLenExact(rules, p2, s, i, d, da);
    case TGrammar(rs) => FixedLenExact(rs, rs[0], s, i, d, da);
    case TCall(r) =>
      if d > 0 { FixedLenExact(rules, rules[r], s, i, d - 1, da - 1); }
    case _ =>
  }

  /** The next character exists and lies outside `cs`. */
  predicate NextOutside(s: seq<Byte>, i: nat, cs: Charset) {
    i < |s| && s[i] !in cs
  }

  /** The first set in context: when the next character is outside `first(t, follow)`, the
      pattern does not get past it, and if it matches then the character is outside `follow`. */
  lemma {:induction false} FirstSound(rules: seq<Tree>, t: Tree, s: seq<Byte>, i: nat, d: nat, follow: Charset, da: nat)
    requires NextOutside(s, i, GetFirst(rules, t, follow, da).cs)
    ensures Match(rules, t, s, i, d).Ok? ==> Match(rules, t, s, i, d).j == i && NextOutside(s, i, follow)
    decreases d, t, |s| - i
  {
    match t
    case TSeq(p1, p2) =>
      if !CheckAux(rules, p1, Nullable, da) {
        FirstSound(rules, p1, s, i, d, FULL, da);
      } else {
        var f2 := GetFirst(rules, p2, follow, da).cs;
        FirstSound(rules, p1, s, i, d, f2, da);
        if Match(rules, p1, s, i, d).Ok? { FirstSound(rules, p2, s, i, d, follow, da); }
      }
    case TChoice(p1, p2) =>
      FirstSound(rules, p1, s, i, d, follow, da);
      FirstSound(rules, p2, s, i, d, follow, da);
    case TRep(b) => FirstSound(rules, b, s, i, d, follow, da);
    case TAnd(b) =>
      if s[i] in follow { FirstSound(rules, b, s, i, d, follow, da); }
    case TGrammar(rs) => if rs != [] { FirstSound(rs, rs[0], s, i, d, follow, da); }
    case TCall(r) =>
      if d > 0 && r < |rules| { FirstSound(rules, rules[r], s, i, d - 1, follow, da - 1); }
    case _ =>
  }

  /** When the analysis allows tests, the pattern fails at the end of the subject. */
  lemma {:induction false} FirstFailsAtEnd(rules: seq<Tree>, t: Tree, s: seq<Byte>, d: nat, follow: Charset, da: nat)
    requires !GetFirst(rules, t, follow, da).e
    ensures !Match(rules, t, s, |s|, d).Ok?
    decreases d, t
  {
    match t
    case TSeq(p1, p2) =>
      if !CheckAux(rules, p1, Nullable, da) {
        FirstFailsAtEnd(rules, p1, s, d, FULL, da);
      } else if GetFirst(rules, p2, follow, da).e {
        FirstFailsAtEnd(rules, p1, s, d, GetFirst(rules, p2, follow, da).cs, da);
      } else {
        FirstFailsAtEnd(rules, p2, s, d, follow, da);
      }
    case TChoice(p1, p2) =>
      FirstFailsAtEnd(rules, p1, s, d, follow, da);
      FirstFailsAtEnd(rules, p2, s, d, follow, da);
    case TAnd(b) => FirstFailsAtEnd(rules, b, s, d, follow, da);
    case TGrammar(rs) => FirstFailsAtEnd(rs, rs[0], s, d, follow, da);
    case TCall(r) =>
      if d > 0 { FirstFailsAtEnd(rules, rules[r], s, d - 1, follow, da - 1); }
    case _ =>
  }

  /** First sets grow with the follow set; the end-of-subject flag does not depend on it. */
  lemma {:induction false} FirstMonotone(rules: seq<Tree>, t: Tree, f: Charset, f': Charset, da: nat)
    requires f <= f'
    ensures GetFirst(rules, t, f, da).cs <= GetFirst(rules, t, f', da).cs
    ensures GetFirst(rules, t, f, da).e == GetFirst(rules, t, f', da).e
    decreases da, t
  {
    match t
    case TSeq(p1, p2) =>
      if CheckAux(rules, p1, Nullable, da) {
        FirstMonotone(rules, p2, f, f', da);
        FirstMonotone(rules, p1, GetFirst(rules, p2, f, da).cs, GetFirst(rules, p2, f', da).cs, da);
      }
    case TChoice(p1, p2) =>
      FirstMonotone(rules, p1, f, f', da);
      FirstMonotone(rules, p2, f, f', da);
    case TRep(b) => FirstMonotone(rules, b, f, f', da);
    case TAnd(b) => FirstMonotone(rules, b, f, f', da);
    case TGrammar(rs) => if rs != [] { FirstMonotone(rs, rs[0], f, f', da); }
    case TCall(r) =>
      if da > 0 && r < |rules| { FirstMonotone(rules, rules[r], f, f', da - 1); }
    case _ =>
  }

  /** A head-fail pattern always allows tests. */
  lemma {:induction false} HeadFailAllowsTest(rules: seq<Tree>, t: Tree, follow: Charset, da: nat)
    requires HeadFail(rules, t, da)
    ensures !GetFirst(rules, t, follow, da).e
    decreases da, t
  {
    match t
    case TSeq(p1, p2) =>
      HeadFailAllowsTest(rules, p1, FULL, da);
      HeadFailAllowsTest(rules, p1, GetFirst(rules, p2, follow, da).cs, da);
    case TChoice(p1, p2) =>
      HeadFailAllowsTest(rules, p1, follow, da);
      HeadFailAllowsTest(rules, p2, follow, da);
    case TAnd(b) => HeadFailAllowsTest(rules, b, follow, da);
    case TGrammar(rs) => HeadFailAllowsTest(rs, rs[0], follow, da);
    case TCall(r) => HeadFailAllowsTest(rules, rules[r], follow, da - 1);
    case _ =>
  }

  /** For a head-fail pattern the first set is exact: a character in it rules failure out. */
  lemma {:induction false} HeadFailExact(rules: seq<Tree>, t: Tree, s: seq<Byte>, i: nat, d: nat, da: nat)
    requires HeadFail(rules, t, da)
    requires i < |s| && s[i] in GetFirst(rules, t, FULL, da).cs
    ensures Match(rules, t, s, i, d) != Fail
    decreases d, t
  {
    match t
    case TSeq(p1, p2) =>
      FirstMonotone(rules, p1, GetFirst(rules, p2, FULL, da).cs, FULL, da);
      HeadFailExact(rules, p1, s, i, d, da);
      if Match(rules, p1, s, i, d).Ok? {
        NofailNeverFails(rules, p2, s, Match(rules, p1, s, i, d).j, d, da);
      }
    case TChoice(p1, p2) =>
      if s[i] in GetFirst(rules, p1, FULL, da).cs {
        HeadFailExact(rules, p1, s, i, d, da);
      } else {
        HeadFailExact(rules, p2, s, i, d, da);
      }
    case TAnd(b) => HeadFailExact(rules, b, s, i, d, da);
    case TGrammar(rs) => HeadFailExact(rs, rs[0], s, i, d, da);
    case TCall(r) =>
      if d > 0 { HeadFailExact(rules, rules[r], s, i, d - 1, da - 1); }
    case _ =>
  }

  /** A head-fail pattern fails exactly when its first set rejects the next character. */
  lemma HeadFailIff(rules: seq<Tree>, t: Tree, s: seq<Byte>, i: nat, d: nat, da: nat)
    requires i <= |s| && HeadFail(rules, t, da) && Match(rules, t, s, i, d) != Diverge
    ensures Match(rules, t, s, i, d).Fail? <==> !(i < |s| && s[i] in GetFirst(rules, t, FULL, da).cs)
  {
    HeadFailAllowsTest(rules, t, FULL, da);
    if i == |s| {
      FirstFailsAtEnd(rules, t, s, d, FULL, da);
    } else if s[i] in GetFirst(rules, t, FULL, da).cs {
      HeadFailExact(rules, t, s, i, d, da);
    } else {
      FirstSound(rules, t, s, i, d, FULL, da);
    }
  }
}
