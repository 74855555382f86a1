/** The matching machine (`match` in `lpvm.c`) and the instructions it runs.

    Code is a sequence with one element per instruction, so offsets count instructions.
    The bottom entry of the backtrack stack, which makes the match give up, is the empty stack. */
module PegMachine {
  import opened Wrappers
  import opened PegTree

  datatype Instr =
    | IAny
    | IChar(c: Byte)
    | ISet(cs: Charset)
    | ITestAny(off: int)
    | ITestChar(tc: Byte, off: int)
    | ITestSet(tcs: Charset, off: int)
    | ISpan(span: Charset)
    | IBehind(n: nat)
    | IRet
    | IEnd
    | IChoice(off: int)
    | IJmp(off: int)
    | ICall(off: int)
    | IOpenCall(key: nat)
    | ICommit(off: int)
    | IPartialCommit(off: int)
    | IBackCommit(off: int)
    | IFailTwice
    | IFail

  predicate HasLabel(ins: Instr) {
    ins.ITestAny? || ins.ITestChar? || ins.ITestSet? || ins.IChoice? || ins.IJmp? || ins.ICall? ||
    ins.ICommit? || ins.IPartialCommit? || ins.IBackCommit?
  }

  function WithLabel(ins: Instr, off: int): (r: Instr)
    requires HasLabel(ins)
    ensures HasLabel(r) && r.off == off
  {
    ins.(off := off)
  }

  /** A backtrack entry saves a position of the subject; a call entry saves none. */
  datatype Stack =
    | Bottom
    | Back(pc: int, pos: nat, below: Stack)
    | Return(pc: int, below: Stack)

  /** `Done(None)` is a failed match.  `Stuck` stands for the states the C asserts exclude. */
  datatype State = Run(pc: int, pos: nat, stack: Stack) | Done(r: Option<nat>) | Stuck

  /** Pending calls are removed down to the latest saved choice, which is resumed. */
  function FailTo(stack: Stack): State {
    match stack
    case Bottom => Done(None)
    case Back(pc, pos, below) => Run(pc, pos, below)
    case Return(_, below) => FailTo(below)
  }

  /** The end of the longest run of characters of `cs` that starts at `i`. */
  function SpanEnd(cs: Charset, s: seq<Byte>, i: nat): (j: nat)
    ensures i <= j && (i <= |s| ==> j <= |s|)
    decreases |s| - i
  {
    if i < |s| && s[i] in cs then SpanEnd(cs, s, i + 1) else i
  }

  predicate Accepts(s: seq<Byte>, i: nat, cs: Charset) {
    i < |s| && s[i] in cs
  }

  function Step(code: seq<Instr>, s: seq<Byte>, x: State): State {
    if !x.Run? then x
    else if !(0 <= x.pc < |code|) then Stuck
    else
      var Run(p, i, st) := x;
      match code[p]
      case IEnd => if st.Bottom? then Done(Some(i)) else Stuck
      case IRet => if st.Return? then Run(st.pc, i, st.below) else Stuck
      case IAny => if i < |s| then Run(p + 1, i + 1, st) else FailTo(st)
      case IChar(c) => if Accepts(s, i, {c}) then Run(p + 1, i + 1, st) else FailTo(st)
      case ISet(cs) => if Accepts(s, i, cs) then Run(p + 1, i + 1, st) else FailTo(st)
      case ITestAny(off) => Run(if i < |s| then p + 1 else p + off, i, st)
      case ITestChar(c, off) => Run(if Accepts(s, i, {c}) then p + 1 else p + off, i, st)
      case ITestSet(cs, off) => Run(if Accepts(s, i, cs) then p + 1 else p + off, i, st)
      case IBehind(n) => if n > i then FailTo(st) else Run(p + 1, i - n, st)
      case ISpan(cs) => Run(p + 1, SpanEnd(cs, s, i), st)
      case IJmp(off) => Run(p + off, i, st)
      case IChoice(off) => Run(p + 1, i, Back(p + off, i, st))
      case ICall(off) => Run(p + off, i, Return(p + 1, st))
      case ICommit(off) => if st.Back? then Run(p + off, i, st.below) else Stuck
      case IPartialCommit(off) => if st.Back? then Run(p + off, i, st.(pos := i)) else Stuck
      case IBackCommit(off) => if st.Back? then Run(p + off, st.pos, st.below) else Stuck
      case IFailTwice => if st.Back? then FailTo(st.below) else Stuck
      case IFail => FailTo(st)
      case IOpenCall(_) => Stuck
  }

  function Steps(code: seq<Instr>, s: seq<Byte>, x: State, n: nat): State
    decreases n
  {
    if n == 0 then x else Steps(code, s, Step(code, s, x), n - 1)
  }

  ghost predicate Halts(code: seq<Instr>, s: seq<Byte>, x: State) {
    exists n: nat :: Steps(code, s, x, n).Done?
  }

  /** What a run from a state leads to: a final result, or none if it never halts. */
  datatype Effect = Result(r: Option<nat>) | Forever

  ghost function Eff(code: seq<Instr>, s: seq<Byte>, x: State): Effect {
    if Halts(code, s, x) then
      var n: nat :| Steps(code, s, x, n).Done?;
      Result(Steps(code, s, x, n).r)
    else Forever
  }

  /** A finished run stays finished. */
  lemma {:induction false} DoneStays(code: seq<Instr>, s: seq<Byte>, x: State, n: nat)
    requires x.Done?
    ensures Steps(code, s, x, n) == x
  {
    if n > 0 { DoneStays(code, s, x, n - 1); }
  }

  /** The result does not depend on how many steps are allowed beyond the last one. */
  lemma {:induction false} ResultUnique(code: seq<Instr>, s: seq<Byte>, x: State, m: nat, n: nat)
    requires Steps(code, s, x, m).Done? && Steps(code, s, x, n).Done?
    ensures Steps(code, s, x, m) == Steps(code, s, x, n)
    decreases m
  {
    if m == 0 {
      DoneStays(code, s, x, n);
    } else if n == 0 {
      DoneStays(code, s, x, m);
    } else {
      ResultUnique(code, s, Step(code, s, x), m - 1, n - 1);
    }
  }

  lemma HaltsGives(code: seq<Instr>, s: seq<Byte>, x: State, n: nat)
    requires Steps(code, s, x, n).Done?
    ensures Eff(code, s, x) == Result(Steps(code, s, x, n).r)
  {
    var m: nat :| Steps(code, s, x, m).Done? && Eff(code, s, x) == Result(Steps(code, s, x, m).r);
    ResultUnique(code, s, x, m, n);
  }

  /** Running one step does not change what the run leads to. */
  lemma StepKeeps(code: seq<Instr>, s: seq<Byte>, x: State)
    ensures Eff(code, s, x) == Eff(code, s, Step(code, s, x))
  {
    var y := Step(code, s, x);
    assert forall n: nat :: Steps(code, s, x, n + 1) == Steps(code, s, y, n);
    if Halts(code, s, x) {
      var n: nat :| Steps(code, s, x, n).Done?;
      var k := if n == 0 then 0 else n - 1;
      assert Steps(code, s, y, k) == Steps(code, s, x, n);
      HaltsGives(code, s, x, n);
      HaltsGives(code, s, y, k);
    }
  }

  /** The position the machine answers with, `None` for a failed match. */
  ghost function MachineResult(code: seq<Instr>, s: seq<Byte>, i: nat): Effect {
    Eff(code, s, Run(0, i, Bottom))
  }
}
