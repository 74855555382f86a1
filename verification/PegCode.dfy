/** The code `codegen` produces for each kind of tree, as a function (`lpcode.c`).

    Offsets are relative, so the code of a tree does not depend on where it is placed.  The
    stateful compiler of `PegCompiler` appends exactly this code. */
module PegCode {
  import opened Wrappers
  import opened PegTree
  import opened PegAnalysis
  import opened PegMachine

  datatype SetKind = EmptySet | OneChar(c: Byte) | FullSet | OtherSet

  /** `charsettype`. */
  function CharsetType(cs: Charset): SetKind {
    if cs == {} then EmptySet
    else if exists c :: c in cs && cs == {c} then (var c :| c in cs && cs == {c}; OneChar(c))
    else if cs == FULL then FullSet
    else OtherSet
  }

  /** The test instruction known to protect the code being generated. */
  datatype Test = NoTest | ByChar(c: Byte) | BySet(cs: Charset)

  function CodeChar(c: Byte, tt: Test): seq<Instr> {
    [if tt == ByChar(c) then IAny else IChar(c)]
  }

  function CodeCharset(cs: Charset, tt: Test): seq<Instr> {
    match CharsetType(cs)
    case OneChar(c) => CodeChar(c, tt)
    case OtherSet => [if tt == BySet(cs) then IAny else ISet(cs)]
    case FullSet => [IAny]
    case EmptySet => [IFail]
  }

  /** `codetestset` for a pattern that allows tests. */
  function TestInstr(cs: Charset, off: int): Instr {
    match CharsetType(cs)
    case EmptySet => IJmp(off)
    case FullSet => ITestAny(off)
    case OneChar(c) => ITestChar(c, off)
    case OtherSet => ITestSet(cs, off)
  }

  function TestBlock(cs: Charset, e: bool, off: int): seq<Instr> {
    if e then [] else [TestInstr(cs, off)]
  }

  /** What a test instruction tells later instructions it protects. */
  function TestOf(ins: Instr): Test {
    match ins
    case ITestChar(c, _) => ByChar(c)
    case ITestSet(cs, _) => BySet(cs)
    case _ => NoTest
  }

  function Protection(cs: Charset, e: bool): Test {
    if e then NoTest else TestOf(TestInstr(cs, 0))
  }

  /** `finaltarget`: where a chain of jumps leads, following at most `limit` of them. */
  function FinalTarget(code: seq<Instr>, i: int, limit: nat): int
    decreases limit
  {
    if 0 <= i < |code| && code[i].IJmp? && limit > 0 then FinalTarget(code, i + code[i].off, limit - 1)
    else i
  }

  predicate IsRet(code: seq<Instr>, i: int) {
    0 <= i < |code| && code[i].IRet?
  }

  /** The call at `i` becomes a call of its rule, or a jump to it when only a return follows. */
  function FixedCall(code: seq<Instr>, from: nat, i: nat, rule: int): Instr
    requires from <= |code|
  {
    if IsRet(code, FinalTarget(code, i + 1, |code| - from)) then IJmp(rule - i) else ICall(rule - i)
  }

  /** `correctcalls` from instruction `i` on; `starts[r]` is the position of rule `r`. */
  function CorrectCalls(code: seq<Instr>, from: nat, i: nat, starts: seq<nat>): (r: seq<Instr>)
    requires from <= |code|
    ensures |r| == |code|
    decreases |code| - i
  {
    if i >= |code| then code
    else if code[i].IOpenCall? && code[i].key < |starts| then
      CorrectCalls(code[i := FixedCall(code, from, i, starts[code[i].key])], from, i + 1, starts)
    else CorrectCalls(code, from, i + 1, starts)
  }

  const MAXBEHIND := 255

  /** `codegen`: `opt` says that the code ends an optional pattern whose choice it may reuse,
      `tt` is the test protecting it, `fl` the follow set. */
  function Gen(rules: seq<Tree>, t: Tree, opt: bool, tt: Test, fl: Charset, da: nat): seq<Instr>
    decreases t, if t.TGrammar? then |t.rules| + 1 else 0
  {
    match t
    case TChar(c) => CodeChar(c, tt)
    case TAny => [IAny]
    case TSet(cs) => CodeCharset(cs, tt)
    case TTrue => []
    case TFalse => [IFail]
    case TSeq(p1, p2) =>
      Gen(rules, p1, false, tt, SeqFollow(rules, p1, p2, fl, da), da) +
      Gen(rules, p2, opt, SeqTest(rules, p1, tt, da), fl, da)
    case TChoice(p1, p2) =>
      var f1 := GetFirst(rules, p1, FULL, da);
      if ChoiceByTest(rules, p1, p2, fl, da) then
        var b1 := Gen(rules, p1, false, Protection(f1.cs, false), fl, da);
        var b2 := Gen(rules, p2, opt, NoTest, fl, da);
        TestedChoice(f1.cs, b1, p2.TTrue?, b2)
      else if opt && p2.TTrue? then
        [IPartialCommit(1)] + Gen(rules, p1, true, NoTest, FULL, da)
      else
        var b1 := Gen(rules, p1, p2.TTrue?, Protection(f1.cs, f1.e), FULL, da);
        var b2 := Gen(rules, p2, opt, NoTest, fl, da);
        FullChoice(f1, b1, b2)
    case TRep(b) =>
      if IsCharPattern(b) then [ISpan(CharsetOf(b))]
      else
        var f := GetFirst(rules, b, FULL, da);
        if RepByTest(rules, b, fl, da) then
          TestedRep(f.cs, Gen(rules, b, false, Protection(f.cs, false), FULL, da))
        else
          FullRep(f, opt, Gen(rules, b, false, NoTest, FULL, da))
    case TBehind(b, n) =>
      (if n > 0 then [IBehind(n)] else []) + Gen(rules, b, false, NoTest, FULL, da)
    case TNot(b) =>
      var f := GetFirst(rules, b, FULL, da);
      if HeadFail(rules, b, da) then TestBlock(f.cs, f.e, 2) + [IFail]
      else FullNot(f, Gen(rules, b, false, NoTest, FULL, da))
    case TAnd(b) =>
      var g := Gen(rules, b, false, tt, FULL, da);
      if AndByLength(rules, b, da) then
        g + (var n := FixedLen(rules, b, da).value; if n > 0 then [IBehind(n)] else [])
      else FullAnd(g)
    case TCall(r) => [IOpenCall(r)]
    case TGrammar(rs) =>
      CorrectCalls(RawGrammar(t, da), 2, 2, RuleStarts(t, da))
  }

  predicate ChoiceByTest(rules: seq<Tree>, p1: Tree, p2: Tree, fl: Charset, da: nat) {
    HeadFail(rules, p1, da) ||
    (!GetFirst(rules, p1, FULL, da).e &&
     Disjoint(GetFirst(rules, p1, FULL, da).cs, GetFirst(rules, p2, fl, da).cs))
  }

  predicate RepByTest(rules: seq<Tree>, b: Tree, fl: Charset, da: nat) {
    HeadFail(rules, b, da) ||
    (!GetFirst(rules, b, FULL, da).e && Disjoint(GetFirst(rules, b, FULL, da).cs, fl))
  }

  predicate AndByLength(rules: seq<Tree>, b: Tree, da: nat) {
    FixedLen(rules, b, da).Some? && FixedLen(rules, b, da).value <= MAXBEHIND
  }

  /** `codeseq1`: the follow set of the first part, and the test left for the second. */
  function SeqFollow(rules: seq<Tree>, p1: Tree, p2: Tree, fl: Charset, da: nat): Charset {
    if NeedFollow(p1) then GetFirst(rules, p2, fl, da).cs else FULL
  }

  function SeqTest(rules: seq<Tree>, p1: Tree, tt: Test, da: nat): Test {
    if FixedLen(rules, p1, da) != Some(0) then NoTest else tt
  }

  /** test -> L1; p1; jmp L2; L1: p2; L2: */
  function TestedChoice(cs: Charset, b1: seq<Instr>, emptyp2: bool, b2: seq<Instr>): seq<Instr> {
    var jmp := if emptyp2 then [] else [IJmp(1 + |b2|)];
    [TestInstr(cs, 1 + |b1| + |jmp|)] + b1 + jmp + b2
  }

  /** A block `b` between two instructions, with code before and after. */
  function Around(a: seq<Instr>, x: Instr, b: seq<Instr>, y: Instr, c: seq<Instr>): (r: seq<Instr>)
    ensures |r| == |a| + |b| + |c| + 2
  {
    a + [x] + b + [y] + c
  }

  /** test -> L1; choice L1; p1; commit L2; L1: p2; L2: */
  function FullChoice(f: First, b1: seq<Instr>, b2: seq<Instr>): seq<Instr> {
    Around(TestBlock(f.cs, f.e, 3 + |b1|), IChoice(2 + |b1|), b1, ICommit(1 + |b2|), b2)
  }

  /** L1: test -> L2; p; jmp L1; L2: */
  function TestedRep(cs: Charset, b: seq<Instr>): seq<Instr> {
    Around([], TestInstr(cs, 2 + |b|), b, IJmp(-(1 + |b|)), [])
  }

  /** test -> L2; choice L2 (or partialcommit L1); L1: p; partialcommit L1; L2: */
  function FullRep(f: First, opt: bool, b: seq<Instr>): seq<Instr> {
    Around(TestBlock(f.cs, f.e, 3 + |b|), if opt then IPartialCommit(1) else IChoice(2 + |b|), b, IPartialCommit(-|b|),
           [])
  }

  /** test -> L1; choice L1; p; failtwice; L1: */
  function FullNot(f: First, b: seq<Instr>): seq<Instr> {
    Around(TestBlock(f.cs, f.e, 3 + |b|), IChoice(2 + |b|), b, IFailTwice, [])
  }

  /** choice L1; p; backcommit L2; L1: fail; L2: */
  function FullAnd(b: seq<Instr>): seq<Instr> {
    Around([], IChoice(2 + |b|), b, IBackCommit(2), [IFail])
  }

  /** The code of the first `k` rules of a grammar, each ended by a return. */
  function RuleCodes(g: Tree, k: nat, da: nat): seq<Instr>
    requires g.TGrammar? && k <= |g.rules|
    decreases g, k
  {
    if k == 0 then []
    else RuleCodes(g, k - 1, da) + Gen(g.rules, g.rules[k - 1], false, NoTest, FULL, da) + [IRet]
  }

  /** call L1; jmp L2; L1: rule 1; ret; rule 2; ret; ...; L2: with the calls still open */
  function RawGrammar(g: Tree, da: nat): seq<Instr>
    requires g.TGrammar?
    decreases g, |g.rules| + 1, 0
  {
    var body := RuleCodes(g, |g.rules|, da);
    [ICall(2), IJmp(1 + |body|)] + body
  }

  /** Where each rule starts in the code of its grammar. */
  function RuleStarts(g: Tree, da: nat): (r: seq<nat>)
    requires g.TGrammar?
    ensures |r| == |g.rules|
    decreases g, |g.rules| + 1, 0
  {
    seq(|g.rules|, k requires 0 <= k < |g.rules| => 2 + |RuleCodes(g, k, da)|)
  }
}
