/** Pattern trees of LPeg and the meaning of a pattern as a parsing-expression match. */
module PegTree {
  type Byte = c: int | 0 <= c < 256
  type Charset = set<Byte>

  const FULL: Charset := set c: Byte | true

  function Complement(cs: Charset): Charset {
    set c: Byte | c !in cs
  }

  predicate Disjoint(a: Charset, b: Charset) {
    a * b == {}
  }

  /** The tags of `TTree` except captures.  Rules are numbered: a call holds the number of
      its rule, and a grammar owns the list of its rules, the first one being initial. */
  datatype Tree =
    | TChar(c: Byte)
    | TSet(cs: Charset)
    | TAny
    | TTrue
    | TFalse
    | TRep(body: Tree)
    | TSeq(p1: Tree, p2: Tree)
    | TChoice(p1: Tree, p2: Tree)
    | TNot(body: Tree)
    | TAnd(body: Tree)
    | TCall(rule: nat)
    | TGrammar(rules: seq<Tree>)
    | TBehind(body: Tree, n: nat)

  /** A match attempt ends at a position, fails, or runs into endless recursion or an empty loop. */
  datatype Outcome = Ok(j: nat) | Fail | Diverge

  predicate IsCharPattern(t: Tree) {
    t.TChar? || t.TSet? || t.TAny?
  }

  /** The set of characters a one-character pattern accepts (`tocharset`). */
  function CharsetOf(t: Tree): Charset
    requires IsCharPattern(t)
  {
    match t
    case TChar(c) => {c}
    case TSet(cs) => cs
    case TAny => FULL
  }

  /** The match of `t` on subject `s` from position `i`, with at most `d` nested rule calls.
      An exhausted depth, a loop on the empty string and a call of a missing rule diverge. */
  function Match(rules: seq<Tree>, t: Tree, s: seq<Byte>, i: nat, d: nat): (o: Outcome)
    requires i <= |s|
    ensures o.Ok? ==> i <= o.j <= |s|
    decreases d, t, |s| - i
  {
    match t
    case TChar(_) => MatchChar(t, s, i)
    case TSet(_) => MatchChar(t, s, i)
    case TAny => MatchChar(t, s, i)
    case TTrue => Ok(i)
    case TFalse => Fail
    case TRep(b) =>
      (match Match(rules, b, s, i, d)
       case Fail => Ok(i)
       case Diverge => Diverge
       case Ok(j) => if j == i then Diverge else Match(rules, t, s, j, d))
    case TSeq(p1, p2) =>
      (match Match(rules, p1, s, i, d)
       case Ok(j) => Match(rules, p2, s, j, d)
       case o => o)
    case TChoice(p1, p2) =>
      (match Match(rules, p1, s, i, d)
       case Fail => Match(rules, p2, s, i, d)
       case o => o)
    case TNot(b) =>
      (match Match(rules, b, s, i, d)
       case Ok(_) => Fail
       case Fail => Ok(i)
       case Diverge => Diverge)
    case TAnd(b) =>
      (match Match(rules, b, s, i, d)
       case Ok(_) => Ok(i)
       case o => o)
    case TBehind(b, n) =>
      if n > i then Fail
      else
        (match Match(rules, b, s, i - n, d)
         case Ok(j) => if j == i then Ok(i) else Fail
         case o => o)
    case TCall(r) =>
      if d == 0 || r >= |rules| then Diverge
      else Match(rules, rules[r], s, i, d - 1)
    case TGrammar(rs) =>
      if rs == [] then Diverge else Match(rs, rs[0], s, i, d)
  }

  function MatchChar(t: Tree, s: seq<Byte>, i: nat): Outcome
    requires IsCharPattern(t) && i <= |s|
  {
    if i < |s| && s[i] in CharsetOf(t) then Ok(i + 1) else Fail
  }

  /** A match that ended within `d` calls ends in the same way with any larger allowance. */
  lemma {:induction false} DepthIrrelevant(rules: seq<Tree>, t: Tree, s: seq<Byte>, i: nat, d: nat, d': nat)
    requires i <= |s| && d <= d'
    requires Match(rules, t, s, i, d) != Diverge
    ensures Match(rules, t, s, i, d') == Match(rules, t, s, i, d)
    decreases d, t, |s| - i
  {
    match t
    case TRep(b) =>
      DepthIrrelevant(rules, b, s, i, d, d');
      if Match(rules, b, s, i, d).Ok? {
        DepthIrrelevant(rules, t, s, Match(rules, b, s, i, d).j, d, d');
      }
    case TSeq(p1, p2) =>
      DepthIrrelevant(rules, p1, s, i, d, d');
      if Match(rules, p1, s, i, d).Ok? {
        DepthIrrelevant(rules, p2, s, Match(rules, p1, s, i, d).j, d, d');
      }
    case TChoice(p1, p2) =>
      DepthIrrelevant(rules, p1, s, i, d, d');
      if Match(rules, p1, s, i, d).Fail? {
        DepthIrrelevant(rules, p2, s, i, d, d');
      }
    case TNot(b) => DepthIrrelevant(rules, b, s, i, d, d');
    case TAnd(b) => DepthIrrelevant(rules, b, s, i, d, d');
    case TBehind(b, n) => if n <= i { DepthIrrelevant(rules, b, s, i - n, d, d'); }
    case TCall(r) => DepthIrrelevant(rules, rules[r], s, i, d - 1, d' - 1);
    case TGrammar(rs) => DepthIrrelevant(rs, rs[0], s, i, d, d');
    case _ =>
  }
}
