/** The simplifying constructors of patterns and the right-association of sequences and
    choices before compilation (`lptree.c`): none of them changes what a pattern matches. */
module PegBuild {
  import opened Wrappers
  import opened PegTree
  import opened PegAnalysis

  /** Both patterns match alike everywhere. */
  ghost predicate SameMatch(rules: seq<Tree>, t: Tree, t': Tree) {
    forall s: seq<Byte>, i: nat, d: nat :: i <= |s| ==> Match(rules, t', s, i, d) == Match(rules, t, s, i, d)
  }

  /** `lp_seq` */
  function MkSeq(t1: Tree, t2: Tree): Tree {
    if t1.TFalse? || t2.TTrue? then t1
    else if t1.TTrue? then t2
    else TSeq(t1, t2)
  }

  /** `lp_choice` */
  function MkChoice(rules: seq<Tree>, t1: Tree, t2: Tree, da: nat): Tree {
    if IsCharPattern(t1) && IsCharPattern(t2) then TSet(CharsetOf(t1) + CharsetOf(t2))
    else if CheckAux(rules, t1, Nofail, da) || t2.TFalse? then t1
    else if t1.TFalse? then t2
    else TChoice(t1, t2)
  }

  /** `lp_sub` */
  function MkSub(t1: Tree, t2: Tree): Tree {
    if IsCharPattern(t1) && IsCharPattern(t2) then TSet(CharsetOf(t1) - CharsetOf(t2))
    else TSeq(TNot(t2), t1)
  }

  lemma MkSeqSame(rules: seq<Tree>, t1: Tree, t2: Tree)
    ensures SameMatch(rules, TSeq(t1, t2), MkSeq(t1, t2))
  {
    forall s: seq<Byte>, i: nat, d: nat | i <= |s|
      ensures Match(rules, MkSeq(t1, t2), s, i, d) == Match(rules, TSeq(t1, t2), s, i, d)
    {
      var o := Match(rules, t1, s, i, d);
      if t2.TTrue? && o.Ok? { assert Match(rules, t2, s, o.j, d) == o; }
    }
  }

  lemma MkChoiceSame(rules: seq<Tree>, t1: Tree, t2: Tree, da: nat)
    ensures SameMatch(rules, TChoice(t1, t2), MkChoice(rules, t1, t2, da))
  {
    forall s: seq<Byte>, i: nat, d: nat | i <= |s|
      ensures Match(rules, MkChoice(rules, t1, t2, da), s, i, d) == Match(rules, TChoice(t1, t2), s, i, d)
    {
      if CheckAux(rules, t1, Nofail, da) { NofailNeverFails(rules, t1, s, i, d, da); }
      if IsCharPattern(t1) && IsCharPattern(t2) {
        CharMatches(rules, t1, s, i, d);
        CharMatches(rules, t2, s, i, d);
      }
    }
  }

  lemma MkSubSame(rules: seq<Tree>, t1: Tree, t2: Tree)
    ensures SameMatch(rules, TSeq(TNot(t2), t1), MkSub(t1, t2))
  {
    forall s: seq<Byte>, i: nat, d: nat | i <= |s|
      ensures Match(rules, MkSub(t1, t2), s, i, d) == Match(rules, TSeq(TNot(t2), t1), s, i, d)
    {
      if IsCharPattern(t1) && IsCharPattern(t2) {
        CharMatches(rules, t1, s, i, d);
        CharMatches(rules, t2, s, i, d);
      }
    }
  }

  lemma CharMatches(rules: seq<Tree>, t: Tree, s: seq<Byte>, i: nat, d: nat)
    requires IsCharPattern(t) && i <= |s|
    ensures Match(rules, t, s, i, d) == if i < |s| && s[i] in CharsetOf(t) then Ok(i + 1) else Fail
  {
  }

  // ----- repetition counts (`lp_star`) -----

  /** `p^n` for `n >= 0`: n copies in sequence before the repetition. */
  function AtLeast(p: Tree, n: nat): Tree {
    if n == 0 then TRep(p) else TSeq(p, AtLeast(p, n - 1))
  }

  /** `p^-n` for `n >= 1`: nested optional copies. */
  function AtMost(p: Tree, n: nat): Tree
    requires n >= 1
  {
    if n == 1 then TChoice(p, TTrue) else TChoice(TSeq(p, AtMost(p, n - 1)), TTrue)
  }

  /** Matching `p` greedily, at most `most` times (for ever if `most` is none). */
  datatype Greedy = Greedy(times: nat, o: Outcome)

  function Repeat(rules: seq<Tree>, p: Tree, s: seq<Byte>, i: nat, d: nat, most: Option<nat>): (g: Greedy)
    requires i <= |s|
    ensures g.o.Ok? || g.o.Diverge?
    ensures most.Some? ==> g.times <= most.value
    decreases if most.Some? then most.value else |s| - i
  {
    if most == Some(0) then Greedy(0, Ok(i))
    else
      match Match(rules, p, s, i, d)
      case Fail => Greedy(0, Ok(i))
      case Diverge => Greedy(0, Diverge)
      case Ok(j) =>
        if most.None? && j == i then Greedy(1, Diverge)
        else
          var g := Repeat(rules, p, s, j, d, if most.None? then None else Some(most.value - 1));
          Greedy(g.times + 1, g.o)
  }

  /** `p^n` matches greedily and succeeds exactly when at least `n` copies match. */
  lemma {:induction false} AtLeastMatches(rules: seq<Tree>, p: Tree, n: nat, s: seq<Byte>, i: nat, d: nat, da: nat)
    requires i <= |s| && !CheckAux(rules, p, Nullable, da)
    ensures var g := Repeat(rules, p, s, i, d, None);
            Match(rules, AtLeast(p, n), s, i, d) == if g.o.Ok? && g.times < n then Fail else g.o
    decreases |s| - i, n
  {
    NotNullableConsumes(rules, p, s, i, d, da);
    var o := Match(rules, p, s, i, d);
    if o.Ok? { AtLeastMatches(rules, p, if n == 0 then 0 else n - 1, s, o.j, d, da); }
  }

  /** `p^-n` matches greedily up to `n` copies and never fails. */
  lemma {:induction false} AtMostMatches(rules: seq<Tree>, p: Tree, n: nat, s: seq<Byte>, i: nat, d: nat)
    requires i <= |s| && n >= 1
    ensures Match(rules, AtMost(p, n), s, i, d) == Repeat(rules, p, s, i, d, Some(n)).o
    decreases n
  {
    hide Match;
    OneMoreMatches(rules, p, n, s, i, d);
    var o := Match(rules, p, s, i, d);
    if o.Ok? && n > 1 { AtMostMatches(rules, p, n - 1, s, o.j, d); }
  }

  /** The outermost of the copies. */
  lemma OneMoreMatches(rules: seq<Tree>, p: Tree, n: nat, s: seq<Byte>, i: nat, d: nat)
    requires i <= |s| && n >= 1
    ensures Match(rules, AtMost(p, n), s, i, d) ==
            match Match(rules, p, s, i, d)
            case Fail => Ok(i)
            case Diverge => Diverge
            case Ok(j) => if n == 1 then Ok(j)
                          else
                            var o := Match(rules, AtMost(p, n - 1), s, j, d);
                            if o.Fail? then Ok(i) else o
  {
  }

  // ----- right association (`correctassociativity`, `finalfix`) -----

  function Op(seqop: bool, a: Tree, b: Tree): Tree {
    if seqop then TSeq(a, b) else TChoice(a, b)
  }

  predicate IsOp(seqop: bool, t: Tree) {
    if seqop then t.TSeq? else t.TChoice?
  }

  /** `correctassociativity`: Op (Op t11 t12) t2 becomes Op t11 (Op t12 t2) until the first part
      is no such operation. */
  function Rotate(seqop: bool, t1: Tree, t2: Tree): (r: Tree)
    ensures IsOp(seqop, r) && !IsOp(seqop, r.p1)
    decreases t1
  {
    if IsOp(seqop, t1) then Rotate(seqop, t1.p1, Op(seqop, t1.p2, t2)) else Op(seqop, t1, t2)
  }

  /** Rotating a sequence or a choice does not change what it matches. */
  lemma {:induction false} RotateSame(rules: seq<Tree>, seqop: bool, t1: Tree, t2: Tree)
    ensures SameMatch(rules, Op(seqop, t1, t2), Rotate(seqop, t1, t2))
    decreases t1
  {
    if IsOp(seqop, t1) {
      var a, b := t1.p1, t1.p2;
      RotateSame(rules, seqop, a, Op(seqop, b, t2));
      forall s: seq<Byte>, i: nat, d: nat | i <= |s|
        ensures Match(rules, Op(seqop, a, Op(seqop, b, t2)), s, i, d) == Match(rules, Op(seqop, t1, t2), s, i, d)
      {
      }
    }
  }

  function Size(t: Tree): nat {
    match t
    case TRep(b) => 1 + Size(b)
    case TSeq(a, b) => 1 + Size(a) + Size(b)
    case TChoice(a, b) => 1 + Size(a) + Size(b)
    case TNot(b) => 1 + Size(b)
    case TAnd(b) => 1 + Size(b)
    case TBehind(b, _) => 1 + Size(b)
    case _ => 1
  }

  lemma {:induction false} RotateSize(seqop: bool, t1: Tree, t2: Tree)
    ensures Size(Rotate(seqop, t1, t2)) == 1 + Size(t1) + Size(t2)
    decreases t1
  {
    if IsOp(seqop, t1) { RotateSize(seqop, t1.p1, Op(seqop, t1.p2, t2)); }
  }

  /** `finalfix` without calls: rotate every sequence and choice, leaving sub-grammars alone. */
  function FinalFix(t: Tree): Tree
    decreases Size(t)
  {
    match t
    case TSeq(a, b) =>
      RotateSize(true, a, b);
      var r := Rotate(true, a, b);
      TSeq(FinalFix(r.p1), FinalFix(r.p2))
    case TChoice(a, b) =>
      RotateSize(false, a, b);
      var r := Rotate(false, a, b);
      TChoice(FinalFix(r.p1), FinalFix(r.p2))
    case TRep(b) => TRep(FinalFix(b))
    case TNot(b) => TNot(FinalFix(b))
    case TAnd(b) => TAnd(FinalFix(b))
    case TBehind(b, n) => TBehind(FinalFix(b), n)
    case _ => t
  }

  /** No sequence begins with a sequence and no choice with a choice. */
  predicate RightAssociated(t: Tree) {
    match t
    case TSeq(a, b) => !a.TSeq? && RightAssociated(a) && RightAssociated(b)
    case TChoice(a, b) => !a.TChoice? && RightAssociated(a) && RightAssociated(b)
    case TRep(b) => RightAssociated(b)
    case TNot(b) => RightAssociated(b)
    case TAnd(b) => RightAssociated(b)
    case TBehind(b, _) => RightAssociated(b)
    case _ => true
  }

  lemma {:induction false} FinalFixAssociates(t: Tree)
    ensures RightAssociated(FinalFix(t))
    ensures FinalFix(t).TSeq? == t.TSeq? && FinalFix(t).TChoice? == t.TChoice?
    decreases Size(t)
  {
    match t
    case TSeq(a, b) =>
      RotateSize(true, a, b);
      FinalFixAssociates(Rotate(true, a, b).p1);
      FinalFixAssociates(Rotate(true, a, b).p2);
    case TChoice(a, b) =>
      RotateSize(false, a, b);
      FinalFixAssociates(Rotate(false, a, b).p1);
      FinalFixAssociates(Rotate(false, a, b).p2);
    case TRep(b) => FinalFixAssociates(b);
    case TNot(b) => FinalFixAssociates(b);
    case TAnd(b) => FinalFixAssociates(b);
    case TBehind(b, _) => FinalFixAssociates(b);
    case _ =>
  }

  /** Right association does not change what a pattern matches. */
  lemma {:induction false} FinalFixSame(rules: seq<Tree>, t: Tree, s: seq<Byte>, i: nat, d: nat)
    requires i <= |s|
    ensures Match(rules, FinalFix(t), s, i, d) == Match(rules, t, s, i, d)
    decreases Size(t), |s| - i
  {
    match t
    case TSeq(a, b) =>
      RotateSize(true, a, b);
      RotateSame(rules, true, a, b);
      var r := Rotate(true, a, b);
      FinalFixSame(rules, r.p1, s, i, d);
      var o := Match(rules, r.p1, s, i, d);
      if o.Ok? { FinalFixSame(rules, r.p2, s, o.j, d); }
    case TChoice(a, b) =>
      RotateSize(false, a, b);
      RotateSame(rules, false, a, b);
      var r := Rotate(false, a, b);
      FinalFixSame(rules, r.p1, s, i, d);
      FinalFixSame(rules, r.p2, s, i, d);
    case TRep(b) =>
      FinalFixSame(rules, b, s, i, d);
      var o := Match(rules, b, s, i, d);
      if o.Ok? && o.j > i { FinalFixSame(rules, t, s, o.j, d); }
    case TNot(b) => FinalFixSame(rules, b, s, i, d);
    case TAnd(b) => FinalFixSame(rules, b, s, i, d);
    case TBehind(b, n) => if n <= i { FinalFixSame(rules, b, s, i - n, d); }
    case _ =>
  }

  lemma {:induction false} RotateFixed(rules: seq<Tree>, seqop: bool, t1: Tree, t2: Tree, da: nat)
    ensures FixedLen(rules, Rotate(seqop, t1, t2), da) == FixedLen(rules, Op(seqop, t1, t2), da)
    decreases t1
  {
    if IsOp(seqop, t1) {
      RotateFixed(rules, seqop, t1.p1, Op(seqop, t1.p2, t2), da);
    }
  }

  /** Right association keeps the fixed length. */
  lemma {:induction false} FinalFixLength(rules: seq<Tree>, t: Tree, da: nat)
    ensures FixedLen(rules, FinalFix(t), da) == FixedLen(rules, t, da)
    decreases Size(t)
  {
    match t
    case TSeq(a, b) =>
      RotateSize(true, a, b);
      RotateFixed(rules, true, a, b, da);
      FinalFixLength(rules, Rotate(true, a, b).p1, da);
      FinalFixLength(rules, Rotate(true, a, b).p2, da);
    case TChoice(a, b) =>
      RotateSize(false, a, b);
      RotateFixed(rules, false, a, b, da);
      FinalFixLength(rules, Rotate(false, a, b).p1, da);
      FinalFixLength(rules, Rotate(false, a, b).p2, da);
    case _ =>
  }

  lemma {:induction false} RotateWf(rules: seq<Tree>, seqop: bool, t1: Tree, t2: Tree)
    requires Wf(rules, t1) && Wf(rules, t2)
    ensures Wf(rules, Rotate(seqop, t1, t2))
    decreases t1
  {
    if IsOp(seqop, t1) { RotateWf(rules, seqop, t1.p1, Op(seqop, t1.p2, t2)); }
  }

  /** Right association keeps what the constructors establish. */
  lemma {:induction false} FinalFixWf(rules: seq<Tree>, t: Tree)
    requires Wf(rules, t)
    ensures Wf(rules, FinalFix(t))
    decreases Size(t)
  {
    match t
    case TSeq(a, b) =>
      RotateSize(true, a, b);
      RotateWf(rules, true, a, b);
      FinalFixWf(rules, Rotate(true, a, b).p1);
      FinalFixWf(rules, Rotate(true, a, b).p2);
    case TChoice(a, b) =>
      RotateSize(false, a, b);
      RotateWf(rules, false, a, b);
      FinalFixWf(rules, Rotate(false, a, b).p1);
      FinalFixWf(rules, Rotate(false, a, b).p2);
    case TRep(b) => FinalFixWf(rules, b);
    case TNot(b) => FinalFixWf(rules, b);
    case TAnd(b) => FinalFixWf(rules, b);
    case TBehind(b, n) =>
      FinalFixWf(rules, b);
      var da :| FixedLen(rules, b, da) == Some(n);
      FinalFixLength(rules, b, da);
    case _ =>
  }
}
