/** The hierarchical timing wheel of `skynet_timer.c`. */
module TimerWheel {
  import opened Wrappers
  import opened Bits

  const WRAP := 0x1_0000_0000
  const HALF := 0x8000_0000

  /** Weights of the levels: 2^8, 2^14, 2^20, 2^26. */
  const W0 := 0x100
  const W1 := 0x4000
  const W2 := 0x10_0000
  const W3 := 0x400_0000

  type U32 = x: int | 0 <= x < WRAP

  datatype Event = Event(handle: nat, session: int)
  datatype Node = Node(event: Event, expire: U32)
  datatype Slot = Near(j: nat) | Level(i: nat, k: nat)

  predicate IsSlot(s: Slot) {
    match s
    case Near(j) => j < 256
    case Level(i, k) => i < 4 && k < 64
  }

  /** The list `add_node` chooses for a node that expires at `e` when the time is `now`. */
  function SlotOf(e: U32, now: U32): (s: Slot)
    ensures IsSlot(s)
  {
    if e / W0 == now / W0 then Near(e % W0)
    else if e / W1 == now / W1 then Level(0, e / W0 % 64)
    else if e / W2 == now / W2 then Level(1, e / W1 % 64)
    else if e / W3 == now / W3 then Level(2, e / W2 % 64)
    else Level(3, e / W3 % 64)
  }

  /** The bits of a time above the digit of level `i`, which the mask of `add_node` leaves. */
  function Leading(e: U32, i: nat): nat {
    if i == 0 then e / W1 else if i == 1 then e / W2 else if i == 2 then e / W3 else 0
  }

  function Weight(i: nat): (w: nat)
    ensures w > 0
  {
    if i == 0 then W0 else if i == 1 then W1 else if i == 2 then W2 else W3
  }

  /** The digit of level `i`. */
  function Digit(e: U32, i: nat): (k: nat)
    ensures k < 64
  {
    if i == 0 then e / W0 % 64 else if i == 1 then e / W1 % 64 else if i == 2 then e / W2 % 64 else e / W3 % 64
  }

  /** Ticks left until the time is `e`. */
  function Left(e: U32, now: U32): (n: nat)
    ensures n < WRAP
  {
    if e >= now then e - now else e - now + WRAP
  }

  function Later(now: U32, n: nat): U32 {
    (now + n) % WRAP
  }

  /** The list that is moved down when the time becomes `now`. */
  function Cascade(now: U32): (c: Option<Slot>)
    ensures c.Some? ==> IsSlot(c.value)
  {
    if now == 0 then Some(Level(3, 0))
    else if now % W0 != 0 then None
    else if now / W0 % 64 != 0 then Some(Level(0, now / W0 % 64))
    else if now / W1 % 64 != 0 then Some(Level(1, now / W1 % 64))
    else if now / W2 % 64 != 0 then Some(Level(2, now / W2 % 64))
    else Some(Level(3, now / W3 % 64))
  }

  lemma LaterLeft(e: U32, now: U32, k: nat)
    ensures k < WRAP ==> (Later(now, k) == e <==> Left(e, now) == k)
    ensures Later(Later(now, 1), k) == Later(now, k + 1)
    ensures Left(e, now) >= 1 ==> Left(e, Later(now, 1)) == Left(e, now) - 1
    ensures Left(e, now) == 0 <==> e == now
  {
    LaterAgain(now, k);
    if k < WRAP { LaterSum(now, k); }
    LaterSum(now, 1);
  }

  lemma LaterAgain(now: U32, k: nat)
    ensures Later(Later(now, 1), k) == Later(now, k + 1)
  {
  }

  lemma LaterSum(now: U32, k: nat)
    requires k < WRAP
    ensures Later(now, k) == if now + k < WRAP then now + k else now + k - WRAP
  {
  }

  /** A tick changes the leading bits only where a new block begins, and then by one;
      no pending node expires in the block that ends. */
  lemma BlockEnds0(e: U32, now: U32)
    requires 1 <= Left(e, now) < HALF
    ensures now + 1 < WRAP ==> (now + 1) / W0 == now / W0 + if (now + 1) % W0 == 0 then 1 else 0
    ensures (now + 1) % W0 == 0 ==> e / W0 != now / W0
  {
  }

  lemma BlockEnds1(e: U32, now: U32)
    requires 1 <= Left(e, now) < HALF
    ensures now + 1 < WRAP ==> (now + 1) / W1 == now / W1 + if (now + 1) % W1 == 0 then 1 else 0
    ensures (now + 1) % W1 == 0 ==> e / W1 != now / W1
  {
  }

  lemma BlockEnds2(e: U32, now: U32)
    requires 1 <= Left(e, now) < HALF
    ensures now + 1 < WRAP ==> (now + 1) / W2 == now / W2 + if (now + 1) % W2 == 0 then 1 else 0
    ensures (now + 1) % W2 == 0 ==> e / W2 != now / W2
  {
  }

  lemma BlockEnds3(e: U32, now: U32)
    requires 1 <= Left(e, now) < HALF
    ensures now + 1 < WRAP ==> (now + 1) / W3 == now / W3 + if (now + 1) % W3 == 0 then 1 else 0
    ensures (now + 1) % W3 == 0 ==> e / W3 != now / W3
  {
  }

  /** A multiple of one weight whose digit is zero is a multiple of the next. */
  lemma NextWeight(x: U32)
    ensures x % W0 == 0 ==> (x / W0 % 64 == 0 <==> x % W1 == 0)
    ensures x % W1 == 0 ==> (x / W1 % 64 == 0 <==> x % W2 == 0) && x % W0 == 0
    ensures x % W2 == 0 ==> (x / W2 % 64 == 0 <==> x % W3 == 0) && x % W1 == 0
    ensures x % W3 == 0 ==> x % W2 == 0
    ensures x / W0 / 64 == x / W1 && x / W1 / 64 == x / W2 && x / W2 / 64 == x / W3 && x / W3 < 64
  {
  }

  /** Only nodes of the cascaded list belong elsewhere after a tick. */
  lemma OnlyCascadedMove(e: U32, now: U32)
    requires 1 <= Left(e, now) < HALF
    ensures var now' := Later(now, 1);
            SlotOf(e, now') == SlotOf(e, now) || Cascade(now') == Some(SlotOf(e, now))
  {
    hide SlotOf, Cascade, Left;
    LaterSum(now, 1);
    if now + 1 == WRAP {
      MovesAtWrap(e);
    } else if (now + 1) % W0 != 0 {
      MovesWithinBlock(e, now);
    } else {
      MovesAcrossBlocks(e, now);
    }
  }

  lemma MovesAtWrap(e: U32)
    requires 1 <= Left(e, WRAP - 1) < HALF
    ensures SlotOf(e, 0) == SlotOf(e, WRAP - 1) || Cascade(0) == Some(SlotOf(e, WRAP - 1))
  {
  }

  lemma MovesWithinBlock(e: U32, now: U32)
    requires now + 1 < WRAP && (now + 1) % W0 != 0
    ensures SlotOf(e, now + 1) == SlotOf(e, now)
  {
    assert (now + 1) / W0 == now / W0;
    NextWeight(now + 1);
    NextWeight(now);
  }

  lemma MovesAcrossBlocks(e: U32, now: U32)
    requires 1 <= Left(e, now) < HALF && now + 1 < WRAP && (now + 1) % W0 == 0
    ensures SlotOf(e, now + 1) == SlotOf(e, now) || Cascade(now + 1) == Some(SlotOf(e, now))
  {
    hide Left;
    BlockEnds0(e, now);
    BlockEnds1(e, now);
    BlockEnds2(e, now);
    BlockEnds3(e, now);
    NextWeight(now + 1);
    NextWeight(e);
    NextWeight(now);
  }

  /** Nodes that expire right after a tick are in the near list the tick executes. */
  lemma DueIsNear(now: U32)
    ensures SlotOf(now, now) == Near(now % W0)
  {
  }

  lemma Weights()
    ensures Exp2(8) == W0 && Exp2(14) == W1 && Exp2(20) == W2 && Exp2(26) == W3
  {
    assert Exp2(14) == 0x40 * Exp2(8) && Exp2(20) == 0x40 * Exp2(14) && Exp2(26) == 0x40 * Exp2(20);
  }

  /** The masks that `timer_shift` uses. */
  lemma MaskBits(now: U32, i: nat)
    requires i < 4
    ensures And(now, Weight(i) - 1) == now % Weight(i)
  {
    Weights();
    AndOnes(now, 8);
    AndOnes(now, 14);
    AndOnes(now, 20);
    AndOnes(now, 26);
  }

  lemma DigitBits(now: U32, i: nat)
    requires i < 4
    ensures And(now / Weight(i), 63) == Digit(now, i)
  {
    assert Exp2(6) == 64;
    AndOnes(now / Weight(i), 6);
  }

  /** The masks that `add_node` uses. */
  lemma MaskOf(e: U32, now: U32)
    ensures Or(e, W0 - 1) == Or(now, W0 - 1) <==> e / W0 == now / W0
    ensures forall i :: 0 <= i < 3 ==> (Or(e, Mask(i) - 1) == Or(now, Mask(i) - 1) <==>
                                        Leading(e, i) == Leading(now, i))
  {
    Weights();
    MasksCompareLeadingBits(e, now, 8);
    MasksCompareLeadingBits(e, now, 14);
    MasksCompareLeadingBits(e, now, 20);
    MasksCompareLeadingBits(e, now, 26);
  }

  /** The mask after `i` shifts by a level; the third one shifts out the last bit of the word. */
  function Mask(i: nat): nat {
    if i == 0 then W1 else if i == 1 then W2 else if i == 2 then W3 else 0
  }

  /** The nodes of a list that expire at `e`, in order. */
  function Expiring(list: seq<Node>, e: U32): (r: seq<Node>)
    ensures (forall n :: n in list ==> n.expire != e) ==> r == []
    ensures forall n :: n in r ==> n in list && n.expire == e
  {
    if list == [] then []
    else
      var rest := Expiring(list[..|list| - 1], e);
      var n := list[|list| - 1];
      if n.expire == e then rest + [n] else rest
  }

  lemma {:induction false} ExpiringConcat(a: seq<Node>, b: seq<Node>, e: U32)
    ensures Expiring(a + b, e) == Expiring(a, e) + Expiring(b, e)
  {
    if b == [] {
      assert a + b == a;
    } else {
      assert (a + b)[..|a + b| - 1] == a + b[..|b| - 1];
      ExpiringConcat(a, b[..|b| - 1], e);
    }
  }

  lemma {:induction false} ExpiringAll(list: seq<Node>, e: U32)
    requires forall n :: n in list ==> n.expire == e
    ensures Expiring(list, e) == list
  {
    if list != [] {
      var rest, n := list[..|list| - 1], list[|list| - 1];
      assert list == rest + [n];
      assert n in list && forall m :: m in rest ==> m in list;
      ExpiringAll(rest, e);
    }
  }

  // ----- wheels as values -----

  type Wheel = imap<Slot, seq<Node>>

  ghost predicate Total(w: Wheel) {
    forall s :: IsSlot(s) <==> s in w
  }

  /** Every pending node is in the list `add_node` would choose for it now, and has between
      `least` and 2^31 - 1 ticks left. */
  ghost predicate Placed(w: Wheel, now: U32, least: nat) {
    Total(w) &&
    forall s, n :: s in w && n in w[s] ==> InPlace(n, s, now, least)
  }

  predicate InPlace(n: Node, s: Slot, now: U32, least: nat) {
    SlotOf(n.expire, now) == s && least <= Left(n.expire, now) < HALF
  }

  /** The pending nodes that expire at `e`, in order of insertion. */
  ghost function Pending(w: Wheel, now: U32, e: U32): seq<Node>
    requires Total(w)
  {
    Expiring(w[SlotOf(e, now)], e)
  }

  /** The nodes due `k` ticks from now, in order of insertion. */
  ghost function Due(w: Wheel, now: U32, k: nat): seq<Node>
    requires Total(w)
  {
    if k >= HALF then [] else Pending(w, now, Later(now, k))
  }

  ghost function With(w: Wheel, now: U32, node: Node): (r: Wheel)
    requires Total(w)
    ensures Total(r)
  {
    var slot := SlotOf(node.expire, now);
    w[slot := w[slot] + [node]]
  }

  /** The wheel after linking the nodes of a list, in order. */
  ghost function WithAll(w: Wheel, now: U32, list: seq<Node>): (r: Wheel)
    requires Total(w)
    ensures Total(r)
  {
    if list == [] then w else With(WithAll(w, now, list[..|list| - 1]), now, list[|list| - 1])
  }

  lemma WithNone(w: Wheel, now: U32)
    requires Total(w)
    ensures WithAll(w, now, []) == w
  {
  }

  lemma WithNext(w: Wheel, now: U32, list: seq<Node>, m: nat)
    requires Total(w) && m < |list|
    ensures WithAll(w, now, list[..m + 1]) == With(WithAll(w, now, list[..m]), now, list[m])
  {
    assert list[..m + 1][..m] == list[..m];
  }

  /** The wheel after the time has advanced to `now'` and one list has been moved down. */
  ghost function Shifted(w: Wheel, now': U32): (r: Wheel)
    requires Total(w)
    ensures Total(r)
  {
    match Cascade(now')
    case None => w
    case Some(c) => WithAll(w[c := []], now', w[c])
  }

  lemma WithPending(w: Wheel, now: U32, node: Node, e: U32)
    requires Total(w)
    ensures Pending(With(w, now, node), now, e) == Pending(w, now, e) + if node.expire == e then [node] else []
  {
    hide SlotOf;
    if SlotOf(e, now) == SlotOf(node.expire, now) {
      var list := w[SlotOf(e, now)];
      assert (list + [node])[..|list + [node]| - 1] == list;
    }
  }

  lemma {:induction false} WithAllPending(w: Wheel, now: U32, list: seq<Node>, e: U32)
    requires Total(w)
    ensures Pending(WithAll(w, now, list), now, e) == Pending(w, now, e) + Expiring(list, e)
    decreases |list|
  {
    hide SlotOf;
    if list != [] {
      WithAllPending(w, now, list[..|list| - 1], e);
      WithPending(WithAll(w, now, list[..|list| - 1]), now, list[|list| - 1], e);
    }
  }

  lemma {:induction false} WithAllPlaced(w: Wheel, now: U32, list: seq<Node>, least: nat)
    requires Placed(w, now, least)
    requires forall n :: n in list ==> least <= Left(n.expire, now) < HALF
    ensures Placed(WithAll(w, now, list), now, least)
    decreases |list|
  {
    hide SlotOf, Left;
    if list != [] {
      WithAllPlaced(w, now, list[..|list| - 1], least);
      assert list[|list| - 1] in list;
    }
  }

  /** A tick keeps, for every expiry time, the pending nodes and their order. */
  lemma ShiftedPending(w: Wheel, now: U32, e: U32)
    requires Placed(w, now, 1)
    ensures Pending(Shifted(w, Later(now, 1)), Later(now, 1), e) == Pending(w, now, e)
  {
    hide SlotOf, Left, Later, Cascade;
    var now' := Later(now, 1);
    var s, s' := SlotOf(e, now), SlotOf(e, now');
    if 1 <= Left(e, now) < HALF { OnlyCascadedMove(e, now); }
    assert forall x, n :: x in w && n in w[x] && n.expire == e ==> InPlace(n, x, now, 1);
    match Cascade(now')
    case None =>
    case Some(c) => WithAllPending(w[c := []], now', w[c], e);
  }

  lemma ShiftedPlaced(w: Wheel, now: U32)
    requires Placed(w, now, 1)
    ensures Placed(Shifted(w, Later(now, 1)), Later(now, 1), 0)
  {
    hide SlotOf, Left, Later, Cascade;
    var now' := Later(now, 1);
    var c := Cascade(now');
    forall s, n | s in w && n in w[s] && c != Some(s) ensures InPlace(n, s, now', 0) {
      assert InPlace(n, s, now, 1);
      OnlyCascadedMove(n.expire, now);
      LaterLeft(n.expire, now, 0);
    }
    if c.Some? {
      forall n | n in w[c.value] ensures 0 <= Left(n.expire, now') < HALF {
        assert InPlace(n, c.value, now, 1);
        LaterLeft(n.expire, now, 0);
      }
      WithAllPlaced(w[c.value := []], now', w[c.value], 0);
    }
  }

  // ----- the wheel in memory -----

  class Timer {
    /** A list of nodes for every slot, in order of linking. */
    var near: seq<seq<Node>>
    var t: seq<seq<seq<Node>>>
    var time: U32
    /** The timer thread has let the lock go in the second `timer_execute` of a tick. */
    var late: bool

    ghost predicate Shape()
      reads this`near, this`t, this`time
    {
      |near| == 256 && |t| == 4 && forall i :: 0 <= i < 4 ==> |t[i]| == 64
    }

    function List(slot: Slot): seq<Node>
      requires Shape() && IsSlot(slot)
      reads this`near, this`t, this`time
    {
      match slot
      case Near(j) => near[j]
      case Level(i, k) => t[i][k]
    }

    ghost function Lists(): (w: Wheel)
      requires Shape()
      reads this`near, this`t, this`time
      ensures Total(w)
    {
      imap slot | IsSlot(slot) :: List(slot)
    }

    ghost predicate Valid()
      reads this`near, this`t, this`time
    {
      Shape() && Placed(Lists(), time, 1)
    }

    /** The nodes due `k` ticks from now, in the order in which they were added. */
    ghost function DueIn(k: nat): seq<Node>
      requires Shape()
      reads this`near, this`t, this`time
    {
      Due(Lists(), time, k)
    }

    constructor ()
      ensures Valid() && time == 0 && !late
      ensures forall k :: DueIn(k) == []
    {
      near := seq(256, _ => []);
      t := seq(4, _ => seq(64, _ => []));
      time, late := 0, false;
      new;
      hide SlotOf, Left, Later;
      assert forall s :: IsSlot(s) ==> List(s) == [];
    }

    /** `link` */
    method Link(slot: Slot, node: Node)
      requires Shape() && IsSlot(slot)
      modifies this
      ensures Shape() && time == old(time) && late == old(late)
      ensures Lists() == old(Lists())[slot := old(List(slot)) + [node]]
    {
      match slot
      case Near(j) => near := near[j := near[j] + [node]];
      case Level(i, k) => t := t[i := t[i][k := t[i][k] + [node]]];
    }

    /** `link_clear` */
    method LinkClear(slot: Slot) returns (list: seq<Node>)
      requires Shape() && IsSlot(slot)
      modifies this
      ensures Shape() && time == old(time) && late == old(late)
      ensures list == old(List(slot)) && Lists() == old(Lists())[slot := []]
    {
      list := List(slot);
      match slot
      case Near(j) => near := near[j := []];
      case Level(i, k) => t := t[i := t[i][k := []]];
    }

    /** `add_node`, with the loop that finds the level. */
    method AddNode(node: Node)
      requires Shape()
      modifies this
      ensures Shape() && time == old(time) && late == old(late)
      ensures Lists() == With(old(Lists()), time, node)
    {
      hide Or, Exp2;
      MaskOf(node.expire, time);
      if Or(node.expire, W0 - 1) == Or(time, W0 - 1) {
        Link(Near(node.expire % W0), node);
      } else {
        var i, mask := 0, W0 * 64;
        while i < 3
          invariant 0 <= i <= 3 && mask == Mask(i)
          invariant forall m :: 0 <= m < i ==> Leading(node.expire, m) != Leading(time, m)
        {
          if Or(node.expire, mask - 1) == Or(time, mask - 1) { break; }
          i, mask := i + 1, mask * 64 % WRAP;
        }
        assert i > 0 ==> Leading(node.expire, 0) != Leading(time, 0);
        assert i > 1 ==> Leading(node.expire, 1) != Leading(time, 1);
        assert i > 2 ==> Leading(node.expire, 2) != Leading(time, 2);
        Link(Level(i, Digit(node.expire, i)), node);
      }
    }

    /** `timer_add` for a delay the caller keeps positive. */
    method Add(event: Event, delay: nat)
      requires Valid() && 1 <= delay < HALF
      modifies this
      ensures Valid() && time == old(time) && late == old(late)
      ensures forall k :: k >= 1 ==>
                DueIn(k) == old(DueIn(k)) + if k == delay then [Node(event, Later(time, delay))] else []
    {
      hide SlotOf, Left, Later;
      var node := Node(event, Later(time, delay));
      ghost var before := Lists();
      AddNode(node);
      LaterLeft(node.expire, time, delay);
      WithAllPlaced(before, time, [node], 1);
      assert WithAll(before, time, [node]) == With(before, time, node) by { assert [node][..0] == []; }
      forall k | k >= 1
        ensures DueIn(k) == old(DueIn(k)) + if k == delay then [node] else []
      {
        if k < HALF {
          LaterLeft(node.expire, time, k);
          WithPending(before, time, node, Later(time, k));
        }
      }
    }

    /** `move_list`: every node of the list is linked anew, in order. */
    method MoveList(slot: Slot)
      requires Shape() && IsSlot(slot)
      modifies this
      ensures Shape() && time == old(time) && late == old(late)
      ensures Lists() == WithAll(old(Lists())[slot := []], time, old(List(slot)))
    {
      hide SlotOf, With, WithAll;
      WithNone(Lists()[slot := []], time);
      ghost var cleared := Lists()[slot := []];
      var list := LinkClear(slot);
      var m := 0;
      while m < |list|
        invariant 0 <= m <= |list| && Shape() && time == old(time) && late == old(late)
        invariant Lists() == WithAll(cleared, time, list[..m])
      {
        WithNext(cleared, time, list, m);
        AddNode(list[m]);
        m := m + 1;
      }
      assert list[..m] == list;
    }

    /** `timer_shift`: the loop finds the lowest level whose digit has just become non-zero. */
    method Shift()
      requires Valid()
      modifies this
      ensures Shape() && time == Later(old(time), 1) && late == old(late)
      ensures Lists() == Shifted(old(Lists()), time)
    {
      hide SlotOf, Left, Later, Cascade, WithAll, And;
      ghost var before := Lists();
      time := Later(time, 1);
      assert Lists() == before;
      if time == 0 {
        CascadeAtWrap();
        MoveList(Level(3, 0));
      } else {
        var i, mask, rest := 0, W0, time / W0;
        MaskBits(time, 0);
        while And(time, mask - 1) == 0
          invariant 0 <= i < 4 && mask == Weight(i) && rest == time / mask && And(time, mask - 1) == time % mask
          invariant Shape() && Lists() == before && time == Later(old(time), 1) && late == old(late)
          invariant forall m :: 0 <= m < i ==> Digit(time, m) == 0
          invariant i > 0 ==> time % W0 == 0 && time % mask == 0
          decreases 4 - i
        {
          var idx := And(rest, 63);
          DigitBits(time, i);
          if idx != 0 {
            CascadeFound(time, i);
            assert Cascade(time) == Some(Level(i, idx));
            MoveList(Level(i, idx));
            return;
          }
          ZeroDigits(time, i);
          MaskBits(time, i + 1);
          i, mask, rest := i + 1, mask * 64, rest / 64;
        }
        CascadeFound(time, i);
      }
    }

    /** One look at the near list of the current time in `timer_execute`: what is there is taken. */
    method TakeDue() returns (list: seq<Node>)
      requires Shape() && Placed(Lists(), time, 0)
      modifies this
      ensures Valid() && time == old(time) && late == old(late)
      ensures list == old(Pending(Lists(), time, time))
      ensures forall k :: k >= 1 ==> DueIn(k) == old(DueIn(k))
    {
      hide SlotOf, Left, Later;
      ExecutedDue(Lists(), time);
      list := LinkClear(Near(time % W0));
    }

    /** From the start of `timer_update`: what was due at the next tick is taken, and everything else
        comes one tick closer. */
    method Tick() returns (list: seq<Node>)
      requires Valid()
      modifies this
      ensures Valid() && late == old(late) && time == Later(old(time), 1)
      ensures list == old(DueIn(1)) && DueIn(HALF - 1) == []
      ensures forall k :: k >= 1 && k + 1 < HALF ==> DueIn(k) == old(DueIn(k + 1))
    {
      hide SlotOf, Left, Later, Cascade, Pending, Shifted;
      NothingDueNow(Lists(), time);
      list := TakeDue();
      if list == [] {
        TickDue(Lists(), time);
        Shift();
        list := TakeDue();
      }
    }

    /** The timer thread holds the lock once in `timer_update`: from the start, or, if it had let the
        lock go to dispatch (`late`), from where it takes it again, until it lets it go.  The look after
        dispatching finds nothing. */
    method Section() returns (list: seq<Node>)
      requires Valid()
      modifies this
      ensures Valid() && late == (list != [])
      ensures old(late) ==> list == [] && time == old(time) && forall k :: k >= 1 ==> DueIn(k) == old(DueIn(k))
      ensures !old(late) ==> time == Later(old(time), 1) && list == old(DueIn(1)) && DueIn(HALF - 1) == [] &&
                             forall k :: k >= 1 && k + 1 < HALF ==> DueIn(k) == old(DueIn(k + 1))
    {
      hide Later, Placed, Pending, Due;
      NothingDueNow(Lists(), time);
      if late {
        PlacedLess(Lists(), time);
        list := TakeDue();
      } else {
        list := Tick();
      }
      late := list != [];
    }
  }

  lemma PlacedLess(w: Wheel, now: U32)
    ensures Placed(w, now, 1) ==> Placed(w, now, 0)
  {
    hide SlotOf, Left;
    if Placed(w, now, 1) {
      forall s, n | s in w && n in w[s] ensures InPlace(n, s, now, 0) { assert InPlace(n, s, now, 1); }
    }
  }

  /** After the shift, the list of the new time is what was due in one tick. */
  lemma TickDue(w: Wheel, now: U32)
    requires Placed(w, now, 1)
    ensures var now' := Later(now, 1);
            var after := Shifted(w, now');
            Placed(after, now', 0) && Pending(after, now', now') == Due(w, now, 1) &&
            (forall k :: k >= 1 && k + 1 < HALF ==> Due(after, now', k) == Due(w, now, k + 1)) &&
            Due(after, now', HALF - 1) == []
  {
    hide SlotOf, Left, Later, Cascade, Shifted;
    ShiftedPlaced(w, now);
    NothingAtHorizon(w, now);
    ShiftedPending(w, now, Later(now, 1));
    forall k: nat | k + 1 < HALF ensures Due(Shifted(w, Later(now, 1)), Later(now, 1), k) == Due(w, now, k + 1) {
      LaterLeft(0, now, k);
      ShiftedPending(w, now, Later(now, k + 1));
    }
  }

  lemma CascadeAtWrap()
    ensures Cascade(0) == Some(Level(3, 0))
  {
  }

  lemma ZeroDigits(now: U32, i: nat)
    requires now != 0 && i < 4 && now % W0 == 0 && forall m :: 0 <= m <= i ==> Digit(now, m) == 0
    ensures i < 3 && now % Weight(i + 1) == 0
  {
    assert Digit(now, 0) == 0;
    assert i > 0 ==> Digit(now, 1) == 0;
    assert i > 1 ==> Digit(now, 2) == 0;
    assert i > 2 ==> Digit(now, 3) == 0;
    NextWeight(now);
  }

  lemma CascadeFound(now: U32, i: nat)
    requires now != 0 && i <= 4
    requires forall m :: 0 <= m < i ==> Digit(now, m) == 0
    requires i > 0 ==> now % W0 == 0
    requires i == 4 || now % Weight(i) != 0 || Digit(now, i) != 0
    ensures now % W0 == 0 ==> i < 4 && Cascade(now) == Some(Level(i, Digit(now, i)))
    ensures now % W0 != 0 ==> Cascade(now) == None
  {
    assert i > 0 ==> Digit(now, 0) == 0;
    assert i > 1 ==> Digit(now, 1) == 0;
    assert i > 2 ==> Digit(now, 2) == 0;
    assert i > 3 ==> Digit(now, 3) == 0;
    NextWeight(now);
  }

  /** A near list holds only nodes that expire in the current block of 256 ticks. */
  lemma NearIsDue(e: U32, now: U32)
    requires SlotOf(e, now) == Near(now % W0)
    ensures e == now
  {
  }

  /** Clearing the near list of the current time takes exactly what is due now. */
  lemma ExecutedDue(w: Wheel, now: U32)
    requires Placed(w, now, 0)
    ensures w[Near(now % W0)] == Pending(w, now, now)
    ensures Placed(w[Near(now % W0) := []], now, 1)
    ensures forall k :: k >= 1 ==> Due(w[Near(now % W0) := []], now, k) == Due(w, now, k)
  {
    hide SlotOf, Left, Later;
    var cell := Near(now % W0);
    var w' := w[cell := []];
    DueIsNear(now);
    forall n | n in w[cell] ensures n.expire == now {
      assert InPlace(n, cell, now, 0);
      NearIsDue(n.expire, now);
    }
    ExpiringAll(w[cell], now);
    forall s, n | s in w' && n in w'[s] ensures InPlace(n, s, now, 1) {
      assert InPlace(n, s, now, 0);
      LaterLeft(n.expire, now, 0);
    }
    forall k | k >= 1 ensures Due(w', now, k) == Due(w, now, k) {
      if k < HALF {
        LaterLeft(now, now, k);
        LaterLeft(now, now, 0);
        assert forall n :: n in w[cell] ==> n.expire != Later(now, k);
      }
    }
  }

  lemma NothingDueNow(w: Wheel, now: U32)
    requires Placed(w, now, 1)
    ensures Pending(w, now, now) == []
  {
    hide SlotOf, Left;
    forall n | n in w[SlotOf(now, now)] ensures n.expire != now {
      assert InPlace(n, SlotOf(now, now), now, 1);
      LaterLeft(n.expire, now, 0);
    }
  }

  /** No node is 2^31 ticks away. */
  lemma NothingAtHorizon(w: Wheel, now: U32)
    requires Placed(w, now, 1)
    ensures Due(Shifted(w, Later(now, 1)), Later(now, 1), HALF - 1) == []
  {
    hide SlotOf, Left, Later, Cascade;
    var e := Later(now, HALF);
    LaterLeft(e, now, HALF - 1);
    LaterLeft(e, now, HALF);
    ShiftedPending(w, now, e);
    forall n | n in w[SlotOf(e, now)] ensures n.expire != e {
      assert InPlace(n, SlotOf(e, now), now, 1);
    }
  }

  // ----- whole runs -----

  /** What happens under the lock, one after the other: a timeout is added, or the timer thread goes on. */
  datatype Op = Start(event: Event, delay: nat) | Section

  predicate Delays(ops: seq<Op>) {
    forall op :: op in ops && op.Start? ==> 1 <= op.delay < HALF
  }

  /** The timer thread is dispatching the events of a tick. */
  function Dispatching(ops: seq<Op>): bool {
    if ops == [] then false
    else
      var before, op := ops[..|ops| - 1], ops[|ops| - 1];
      if op.Start? then Dispatching(before) else !Dispatching(before) && FiringAt(before, Ticks(before) + 1) != []
  }

  /** The ticks so far: a section that does not follow a dispatch begins one. */
  function Ticks(ops: seq<Op>): nat {
    if ops == [] then 0
    else
      var before, op := ops[..|ops| - 1], ops[|ops| - 1];
      Ticks(before) + if op.Section? && !Dispatching(before) then 1 else 0
  }

  /** The events started with a delay that ends at the `n`-th tick, in order of starting. */
  function FiringAt(ops: seq<Op>, n: nat): seq<Event> {
    if ops == [] then []
    else
      var before, op := ops[..|ops| - 1], ops[|ops| - 1];
      FiringAt(before, n) + if op.Start? && Ticks(before) + op.delay == n then [op.event] else []
  }

  function Events(list: seq<Node>): (r: seq<Event>)
    ensures |r| == |list|
  {
    seq(|list|, i requires 0 <= i < |list| => list[i].event)
  }

  /** The timer holds exactly what the operations so far have started and not yet fired. */
  ghost predicate Tracks(timer: Timer, ops: seq<Op>)
    reads timer
  {
    timer.Valid() && timer.late == Dispatching(ops) &&
    (forall k :: 1 <= k < HALF ==> Events(timer.DueIn(k)) == FiringAt(ops, Ticks(ops) + k)) &&
    forall n :: n >= Ticks(ops) + HALF ==> FiringAt(ops, n) == []
  }

  lemma LastOp(ops: seq<Op>, op: Op, n: nat)
    ensures FiringAt(ops + [op], n) ==
            FiringAt(ops, n) + if op.Start? && Ticks(ops) + op.delay == n then [op.event] else []
    ensures Ticks(ops + [op]) == Ticks(ops) + if op.Section? && !Dispatching(ops) then 1 else 0
    ensures Dispatching(ops + [op]) ==
            if op.Start? then Dispatching(ops) else !Dispatching(ops) && FiringAt(ops, Ticks(ops) + 1) != []
  {
    assert (ops + [op])[..|ops|] == ops;
  }

  method RunStart(timer: Timer, event: Event, delay: nat, ghost ops: seq<Op>)
    requires Tracks(timer, ops) && 1 <= delay < HALF
    modifies timer
    ensures Tracks(timer, ops + [Start(event, delay)])
  {
    hide Due, Placed, Later, FiringAt, Ticks, Dispatching;
    timer.Add(event, delay);
    ghost var ops' := ops + [Start(event, delay)];
    LastOp(ops, Start(event, delay), 0);
    forall k | 1 <= k < HALF ensures Events(timer.DueIn(k)) == FiringAt(ops', Ticks(ops') + k) {
      LastOp(ops, Start(event, delay), Ticks(ops) + k);
    }
    forall n | n >= Ticks(ops') + HALF ensures FiringAt(ops', n) == [] {
      LastOp(ops, Start(event, delay), n);
    }
  }

  method RunSection(timer: Timer, ghost ops: seq<Op>) returns (list: seq<Event>)
    requires Tracks(timer, ops)
    modifies timer
    ensures Tracks(timer, ops + [Section])
    ensures list == if Dispatching(ops) then [] else FiringAt(ops, Ticks(ops) + 1)
  {
    hide Due, Placed, Later, FiringAt, Ticks, Dispatching;
    var nodes := timer.Section();
    list := Events(nodes);
    ghost var ops', d := ops + [Section], if Dispatching(ops) then 0 else 1;
    LastOp(ops, Section, 0);
    forall k | 1 <= k < HALF ensures Events(timer.DueIn(k)) == FiringAt(ops', Ticks(ops') + k) {
      LastOp(ops, Section, Ticks(ops) + d + k);
    }
    forall n | n >= Ticks(ops') + HALF ensures FiringAt(ops', n) == [] {
      LastOp(ops, Section, n);
    }
  }

  ghost predicate FiredOnTime(fired: seq<seq<Event>>, ops: seq<Op>) {
    |fired| == Ticks(ops) && forall n :: 0 <= n < |fired| ==> fired[n] == FiringAt(ops, n + 1)
  }

  /** Nothing is started for a tick that has passed. */
  lemma StillOnTime(fired: seq<seq<Event>>, ops: seq<Op>, op: Op)
    requires FiredOnTime(fired, ops) && (op.Start? ==> op.delay >= 1)
    ensures op.Start? || Dispatching(ops) ==> FiredOnTime(fired, ops + [op])
    ensures op.Section? && !Dispatching(ops) ==> FiredOnTime(fired + [FiringAt(ops, Ticks(ops) + 1)], ops + [op])
  {
    hide FiringAt, Ticks, Dispatching;
    LastOp(ops, op, 0);
    forall m | 1 <= m <= |fired| + 1
      ensures FiringAt(ops + [op], m) == FiringAt(ops, m) + if op.Start? &&
              Ticks(ops) + op.delay == m then [op.event] else []
    {
      LastOp(ops, op, m);
    }
  }

  /** Over every run, however additions and the sections of the timer thread interleave, each event
      fires once, at exactly the tick its delay names counted from the tick under way when it was
      added, and events of the same tick fire in the order in which they were started. */
  method RunAll(ops: seq<Op>) returns (timer: Timer, fired: seq<seq<Event>>)
    requires Delays(ops)
    ensures fresh(timer) && Tracks(timer, ops)
    ensures |fired| == Ticks(ops)
    ensures forall n :: 0 <= n < |fired| ==> fired[n] == FiringAt(ops, n + 1)
  {
    if ops == [] {
      timer := new Timer();
      fired := [];
    } else {
      var before, op := ops[..|ops| - 1], ops[|ops| - 1];
      assert ops == before + [op] && op in ops;
      timer, fired := RunAll(before);
      hide FiringAt, Ticks, Tracks, Dispatching;
      StillOnTime(fired, before, op);
      match op {
        case Start(event, delay) => RunStart(timer, event, delay, before);
        case Section =>
          var dispatched := timer.late;
          LateIsDispatching(timer, before);
          var list := RunSection(timer, before);
          if !dispatched { fired := fired + [list]; }
      }
    }
  }

  lemma LateIsDispatching(timer: Timer, ops: seq<Op>)
    requires Tracks(timer, ops)
    ensures timer.late == Dispatching(ops)
  {
  }
}
