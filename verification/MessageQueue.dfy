/** The message queue of a service (`skynet_mq.c`): a ring that grows, with the flags the
    dispatch protocol rests on. */
module MessageQueue {
  import opened Wrappers
  import opened Bits

  const DEFAULT_QUEUE_SIZE := 64
  const MQ_OVERLOAD := 1024

  /** A queue as the dispatch protocol sees it. */
  datatype Queue<T> = Queue(msgs: seq<T>, inGlobal: bool, release: bool) {

    /** `skynet_mq_push`, and whether it puts the queue on the global list. */
    function Push(m: T): (Queue<T>, bool) {
      (this.(msgs := msgs + [m], inGlobal := true), !inGlobal)
    }

    /** `skynet_mq_pop`: an empty queue leaves global service. */
    function Pop(): (Queue<T>, Option<T>) {
      if msgs == [] then (this.(inGlobal := false), None) else (this.(msgs := msgs[1..]), Some(msgs[0]))
    }

    /** `skynet_mq_mark_release`, and whether it puts the queue on the global list. */
    function MarkRelease(): (Queue<T>, bool) {
      (this.(release := true), !inGlobal)
    }
  }

  function Created<T>(): Queue<T> {
    Queue([], true, false)
  }

  /** The messages in a ring, from `head` up to but excluding `tail`. */
  function View<T>(ring: seq<T>, head: nat, tail: nat): seq<T>
    requires head <= |ring| && tail <= |ring|
  {
    if head <= tail then ring[head..tail] else ring[head..] + ring[..tail]
  }

  lemma ViewPop<T>(ring: seq<T>, head: nat, tail: nat)
    requires head < |ring| && tail < |ring| && head != tail
    ensures View(ring, head, tail) == [ring[head]] + View(ring, if head + 1 >= |ring| then 0 else head + 1, tail)
  {
  }

  lemma ViewPush<T>(ring: seq<T>, head: nat, tail: nat, m: T)
    requires head < |ring| && tail < |ring|
    ensures var ring' := ring[tail := m];
            var tail' := if tail + 1 >= |ring| then 0 else tail + 1;
            if head == tail' then ring'[head..] + ring'[..head] == View(ring, head, tail) + [m]
            else View(ring', head, tail') == View(ring, head, tail) + [m]
  {
  }

  class MessageQueue<T(0)> {
    var queue: array<T>
    var cap: nat
    var head: nat
    var tail: nat
    var release: bool
    var inGlobal: bool
    var overload: nat
    var overloadThreshold: nat

    ghost predicate Valid()
      reads this, queue
    {
      cap == queue.Length && head < cap && tail < cap && overloadThreshold >= MQ_OVERLOAD
    }

    ghost function Msgs(): seq<T>
      requires Valid()
      reads this, queue
    {
      View(queue[..], head, tail)
    }

    ghost function Abs(): Queue<T>
      requires Valid()
      reads this, queue
    {
      Queue(Msgs(), inGlobal, release)
    }

    function LoadNow(): Load
      reads this
    {
      Load(overload, overloadThreshold)
    }

    /** `skynet_mq_create` */
    constructor ()
      ensures Valid() && fresh(queue) && cap == 64 && Abs() == Created() && LoadNow() == Load(0, 1024)
    {
      queue := new T[DEFAULT_QUEUE_SIZE];
      cap, head, tail := DEFAULT_QUEUE_SIZE, 0, 0;
      release, inGlobal := false, true;
      overload, overloadThreshold := 0, MQ_OVERLOAD;
    }

    /** `skynet_mq_length` */
    method Length() returns (n: nat)
      requires Valid()
      ensures n == |Msgs()|
    {
      if head <= tail {
        return tail - head;
      }
      return tail + cap - head;
    }

    /** `skynet_mq_overload` reports and resets the highest length noticed. */
    method TakeOverload() returns (n: nat)
      requires Valid()
      modifies `overload
      ensures Valid() && Abs() == old(Abs()) && n == old(overload) && LoadNow() == After(old(LoadNow()), Taken)
    {
      n := overload;
      overload := 0;
    }

    /** `skynet_mq_pop`.  The length that is left is noted. */
    method Pop() returns (m: Option<T>)
      requires Valid()
      modifies this
      ensures Valid() && queue == old(queue)
      ensures (Abs(), m) == old(Abs().Pop())
      ensures LoadNow() == After(old(LoadNow()), if m == None then Emptied else Left(|Msgs()|))
    {
      if head != tail {
        ViewPop(queue[..], head, tail);
        m := Some(queue[head]);
        head := head + 1;
        if head >= cap {
          head := 0;
        }
        var length := tail - head;
        if length < 0 {
          length := length + cap;
        }
        NoteLength(length);
      } else {
        m := None;
        overloadThreshold := MQ_OVERLOAD;
        inGlobal := false;
      }
    }

    /** The loop of `skynet_mq_pop` that notes an overload: the threshold doubles as often as needed. */
    method NoteLength(length: nat)
      requires overloadThreshold >= 1024
      modifies `overload, `overloadThreshold
      ensures Least(old(overloadThreshold), overloadThreshold, length)
      ensures overload == if length <= old(overloadThreshold) then old(overload) else length
      ensures LoadNow() == After(old(LoadNow()), Left(length))
    {
      ghost var first := overloadThreshold;
      DoubledIsLeast(first, length);
      while length > overloadThreshold
        invariant 1024 <= first <= overloadThreshold
        invariant Doubled(overloadThreshold, length) == Doubled(first, length)
        invariant overload == if overloadThreshold == first then old(overload) else length
        decreases length - overloadThreshold
      {
        overload := length;
        overloadThreshold := overloadThreshold * 2;
      }
    }

    /** `expand_queue`: the full ring is unrolled into one of twice the size. */
    method Expand()
      requires cap == queue.Length && 0 < cap && head == tail < cap && overloadThreshold >= MQ_OVERLOAD
      modifies `queue, `cap, `head, `tail
      ensures Valid() && fresh(queue) && cap == 2 * old(cap)
      ensures Msgs() == old(queue[head..] + queue[..head])
    {
      var old_queue := queue;
      var new_queue := new T[cap * 2];
      var i := 0;
      while i < cap
        invariant 0 <= i <= cap
        invariant forall k :: 0 <= k < i ==> new_queue[k] == old_queue[(head + k) % cap]
        modifies new_queue
      {
        new_queue[i] := old_queue[(head + i) % cap];
        i := i + 1;
      }
      ghost var ring := old_queue[head..] + old_queue[..head];
      forall k | 0 <= k < cap ensures new_queue[k] == ring[k] {
        RingIndex(head, k, cap);
      }
      assert new_queue[0..cap] == ring;
      head, tail := 0, cap;
      cap := cap * 2;
      queue := new_queue;
    }

    /** `skynet_mq_push`; `toGlobal` says that the queue is put on the global list. */
    method Push(m: T) returns (toGlobal: bool)
      requires Valid()
      modifies this, queue
      ensures Valid() && (queue == old(queue) || fresh(queue))
      ensures (Abs(), toGlobal) == old(Abs()).Push(m)
      ensures LoadNow() == old(LoadNow())
    {
      ghost var before := Msgs();
      ViewPush(queue[..], head, tail, m);
      ghost var ring := queue[..][tail := m];
      queue[tail] := m;
      assert queue[..] == ring;
      tail := tail + 1;
      if tail >= cap {
        tail := 0;
      }
      if head == tail {
        assert queue[head..] + queue[..head] == ring[head..] + ring[..head];
        Expand();
      }
      assert Msgs() == before + [m];
      toGlobal := !inGlobal;
      inGlobal := true;
    }

    /** `skynet_mq_mark_release` */
    method MarkRelease() returns (toGlobal: bool)
      requires Valid() && !release
      modifies `release
      ensures Valid() && (Abs(), toGlobal) == old(Abs()).MarkRelease()
    {
      release := true;
      toGlobal := !inGlobal;
    }
  }

  lemma RingIndex(head: nat, k: nat, cap: nat)
    requires head < cap && k < cap
    ensures (head + k) % cap == if head + k < cap then head + k else head + k - cap
  {
    if head + k >= cap { ModSub(head + k, cap); }
  }

  lemma ModSub(x: nat, m: nat)
    requires 0 < m <= x < 2 * m
    ensures x % m == x - m
  {
    var q, r := x / m, x % m;
    assert x == q * m + r && 0 <= r < m;
    MulBounds(q, m);
    assert q == 1;
  }

  lemma MulBounds(q: int, m: nat)
    ensures q >= 2 ==> q * m >= 2 * m
    ensures q <= 0 ==> q * m <= 0
  {
    if q >= 2 { assert (q - 2) * m >= 0; }
  }

  // ----- overload -----

  /** The length last noted as too high, and the threshold above which lengths are noted. */
  datatype Load = Load(overload: nat, threshold: nat)

  /** What may happen to a queue: a message is taken and so many are left, it is found empty, or the
      overload is asked for. */
  datatype Note = Left(length: nat) | Emptied | Taken

  function After(l: Load, e: Note): Load
    requires l.threshold > 0
  {
    match e
    case Left(n) => Load(if n <= l.threshold then l.overload else n, Doubled(l.threshold, n))
    case Emptied => l.(threshold := MQ_OVERLOAD)
    case Taken => l.(overload := 0)
  }

  /** The threshold after doubling until it is no less than `n`. */
  function Doubled(threshold: nat, n: nat): (r: nat)
    requires threshold > 0
    ensures r >= n && r >= threshold
    decreases n - threshold
  {
    if n <= threshold then threshold else Doubled(2 * threshold, n)
  }

  /** `r` is the first of t, 2 t, 4 t and so on that is no less than `n`. */
  ghost predicate Least(t: nat, r: nat, n: nat) {
    exists k: nat :: LeastAt(t, r, n, k)
  }

  predicate LeastAt(t: nat, r: nat, n: nat, k: nat) {
    r == t * Exp2(k) && n <= r && (k > 0 ==> t * Exp2(k - 1) < n)
  }

  lemma {:induction false} DoubledIsLeast(t: nat, n: nat)
    requires t > 0
    ensures Least(t, Doubled(t, n), n)
    decreases n - t
  {
    if n <= t {
      assert LeastAt(t, t, n, 0);
    } else {
      DoubledIsLeast(2 * t, n);
      var k: nat :| LeastAt(2 * t, Doubled(2 * t, n), n, k);
      DoubledAt(t, Doubled(2 * t, n), n, k);
    }
  }

  lemma DoubledAt(t: nat, r: nat, n: nat, k: nat)
    requires t < n && LeastAt(2 * t, r, n, k)
    ensures LeastAt(t, r, n, k + 1)
  {
    Twice(t, Exp2(k));
    if k > 0 { Twice(t, Exp2(k - 1)); }
  }

  lemma {:induction false} LeastOnce(t: nat, r: nat, r': nat, n: nat)
    requires t > 0 && Least(t, r, n) && Least(t, r', n)
    ensures r == r'
  {
    var k: nat :| LeastAt(t, r, n, k);
    var k': nat :| LeastAt(t, r', n, k');
    NotBelow(t, r, r', n, k, k');
    NotBelow(t, r', r, n, k', k);
  }

  lemma NotBelow(t: nat, r: nat, r': nat, n: nat, k: nat, k': nat)
    requires LeastAt(t, r, n, k) && LeastAt(t, r', n, k')
    ensures r' <= r
  {
    if k < k' { PowersGrow(t, k, k' - 1); }
    if k' <= k { PowersGrow(t, k', k); }
  }

  lemma {:induction false} PowersGrow(t: nat, j: nat, k: nat)
    requires j <= k
    ensures t * Exp2(j) <= t * Exp2(k)
  {
    if j < k {
      PowersGrow(t, j, k - 1);
      Twice(t, Exp2(k - 1));
    }
  }

  // ----- whole runs -----

  function LoadAfter(run: seq<Note>): (l: Load)
    ensures l.threshold >= 1024
  {
    if run == [] then Load(0, 1024)
    else
      var l := After(LoadAfter(run[..|run| - 1]), run[|run| - 1]);
      l
  }

  /** The highest length since the queue was last found empty. */
  function Peak(run: seq<Note>): nat {
    if run == [] then 0
    else
      var before, e := run[..|run| - 1], run[|run| - 1];
      match e
      case Left(n) => if n > Peak(before) then n else Peak(before)
      case Emptied => 0
      case Taken => Peak(before)
  }

  /** The first of 1024, 2048, 4096 and so on that is no less than all lengths since the queue was last
      found empty. */
  ghost predicate Limit(run: seq<Note>, limit: nat) {
    Least(1024, limit, Peak(run))
  }

  /** The length left at `i` was above the limit that held then, and has not been asked for since. */
  ghost predicate Reports(run: seq<Note>, i: nat)
    requires i < |run|
  {
    run[i].Left? && (exists limit :: Limit(run[..i], limit) && run[i].length > limit) &&
    forall j :: i < j < |run| ==> !run[j].Taken?
  }

  /** The threshold after any run is that limit. */
  lemma {:induction false} LimitOfRun(run: seq<Note>)
    ensures Limit(run, LoadAfter(run).threshold)
  {
    if run == [] {
      assert LeastAt(1024, 1024, 0, 0);
    } else {
      var before, e := run[..|run| - 1], run[|run| - 1];
      LimitOfRun(before);
      match e
      case Left(n) =>
        DoubledIsLeast(LoadAfter(before).threshold, n);
        LimitRaised(LoadAfter(before).threshold, Peak(before), n, LoadAfter(run).threshold);
      case Emptied => assert LeastAt(1024, 1024, 0, 0);
      case Taken =>
    }
  }

  lemma LimitRaised(t: nat, peak: nat, n: nat, r: nat)
    requires Least(1024, t, peak) && t > 0 && Least(t, r, n)
    ensures Least(1024, r, if n > peak then n else peak)
  {
    var j: nat :| LeastAt(1024, t, peak, j);
    var k: nat :| LeastAt(t, r, n, k);
    Exp2Add(j, k);
    Regroup(Exp2(j), Exp2(k));
    if k > 0 {
      Exp2Add(j, k - 1);
      Regroup(Exp2(j), Exp2(k - 1));
      PowersGrow(t, 0, k - 1);
      assert LeastAt(1024, r, n, j + k);
    } else {
      assert LeastAt(1024, r, peak, j) || n > peak;
      assert r == t;
    }
    assert LeastAt(1024, r, if n > peak then n else peak, j + k);
  }

  lemma Regroup(a: nat, b: nat)
    ensures 1024 * a * b == 1024 * (a * b)
  {
  }

  /** The last of the lengths to report. */
  ghost predicate LastReport(run: seq<Note>, i: nat)
    requires i < |run|
  {
    Reports(run, i) && forall j :: i < j < |run| ==> !Reports(run, j)
  }

  /** `skynet_mq_overload` answers with a length exactly if some length was above the limit and has not been
      asked for since, and then it answers with the last of these. */
  lemma {:induction false} OverloadReported(run: seq<Note>)
    ensures LoadAfter(run).overload == 0 ==> forall i :: 0 <= i < |run| ==> !Reports(run, i)
    ensures LoadAfter(run).overload != 0 ==>
              exists i :: 0 <= i < |run| && LastReport(run, i) && run[i].length == LoadAfter(run).overload
  {
    if run != [] {
      var n := |run| - 1;
      var before, e := run[..n], run[n];
      OverloadReported(before);
      var was, now := LoadAfter(before), LoadAfter(run);
      assert now == After(was, e);
      LastReports(run);
      hide Reports, LoadAfter, Doubled;
      forall i | 0 <= i < n ensures Reports(run, i) <==> !e.Taken? && Reports(before, i) { ReportsEarlier(run, i); }
      if e.Left? && e.length > was.threshold {
        assert LastReport(run, n);
      } else if !e.Taken? && was.overload != 0 {
        var i :| 0 <= i < n && LastReport(before, i) && before[i].length == was.overload;
        assert LastReport(run, i) && run[i] == before[i];
      }
    }
  }

  lemma ReportsEarlier(run: seq<Note>, i: nat)
    requires i < |run| - 1
    ensures Reports(run, i) <==> !run[|run| - 1].Taken? && Reports(run[..|run| - 1], i)
  {
    var before := run[..|run| - 1];
    assert before[..i] == run[..i];
    if !run[|run| - 1].Taken? && Reports(before, i) {
      forall j | i < j < |run| ensures !run[j].Taken? { if j < |run| - 1 { assert before[j] == run[j]; } }
    }
    if Reports(run, i) {
      forall j | i < j < |before| ensures !before[j].Taken? { assert before[j] == run[j]; }
    }
  }

  lemma LastReports(run: seq<Note>)
    requires run != []
    ensures var n := |run| - 1;
            Reports(run, n) <==> run[n].Left? && run[n].length > LoadAfter(run[..n]).threshold
  {
    var n := |run| - 1;
    LimitOfRun(run[..n]);
    forall limit | Limit(run[..n], limit) ensures limit == LoadAfter(run[..n]).threshold {
      LeastOnce(1024, limit, LoadAfter(run[..n]).threshold, Peak(run[..n]));
    }
  }
}
