/** What a step of the socket thread does with the packages. */
module TcpEffect {
  import opened Wrappers
  import opened TcpSocket
  import opened TcpProtocol
  import opened TcpShape

  /** Everything stored, in the order in which it is to be sent. */
  function Bufs(c: Core): seq<Buf> {
    AsSeq(c.dw) + c.high + c.low
  }

  predicate SameData(s: State, s': State) {
    s'.done == s.done && s'.wire == s.wire && s'.cut == s.cut && s'.torn == s.torn && s'.lost == s.lost
  }

  /** The pipe is left alone, or a request other than a send is taken from it. */
  predicate SamePipe(s: State, s': State) {
    s'.pipe == s.pipe || (s.pipe != [] && !s.pipe[0].Send? && s'.pipe == s.pipe[1..])
  }

  predicate Rests(s: State, s': State) {
    SameData(s, s') && Bufs(s'.c) == Bufs(s.c) && s'.refused == s.refused && SamePipe(s, s')
  }

  predicate TakesSend(s: State, s': State) {
    SameData(s, s') && s.pipe != [] && s.pipe[0].Send? && s'.pipe == s.pipe[1..] && s'.thread.Dec? && s.thread.Poll?
  }

  /** Where `send_socket` puts a package: behind all others, or, with high priority, before the low list. */
  function Place(c: Core, p: Pkg): nat {
    if p.low then |Bufs(c)| else |AsSeq(c.dw)| + |c.high|
  }

  predicate Queues(s: State, s': State) {
    TakesSend(s, s') && s'.refused == s.refused && !Refuses(s.c) &&
    var p, q := s.pipe[0].p, Bufs(s.c);
    var k := Place(s.c, p);
    AllLow(q[k..]) && Bufs(s'.c) == q[..k] + [Buffer(p, 0)] + q[k..]
  }

  predicate TurnsAway(s: State, s': State) {
    TakesSend(s, s') && Refuses(s.c) && s'.c == s.c && s'.refused == s.refused + multiset{s.pipe[0].p}
  }

  /** Some bytes of the first package go out. */
  predicate SendsFirst(s: State, s': State) {
    && Bufs(s.c) != [] && s'.pipe == s.pipe && s'.refused == s.refused && s'.lost == s.lost && s'.cut == s.cut
    && s'.torn == s.torn && s.lock == Server && |s'.wire| >= |s.wire| &&
    var b, n := Bufs(s.c)[0], |s'.wire| - |s.wire|;
    && n <= Left(b) && s'.wire == s.wire + Span(b.p, b.off, b.off + n)
    && (if n == Left(b) then s'.done == s.done + [b.p] && Bufs(s'.c) == Bufs(s.c)[1..]
        else s'.done == s.done && Bufs(s'.c) == [Advanced(b, n)] + Bufs(s.c)[1..])
  }

  /** A forced close discards the last of what is stored. */
  predicate Drops(s: State, s': State) {
    && s'.done == s.done && s'.wire == s.wire && s'.torn == s.torn && SamePipe(s, s') && s'.refused == s.refused
    && (s'.thread.Force? || s'.c.kind.Invalid?)
    && Bufs(s'.c) <= Bufs(s.c) &&
    var gone := Bufs(s.c)[|Bufs(s'.c)|..];
    && s'.lost == s.lost + Bag(gone) && s'.cut == (if s.cut.Some? then s.cut else Head(gone))
  }

  /** `sending` goes down exactly when the thread leaves `Dec`, which it enters with each send taken. */
  predicate Counts(s: State, s': State) {
    && s'.sending == (if s.thread.Dec? && !s'.thread.Dec? && s.sending > 0 then s.sending - 1 else s.sending)
    && (s'.thread.Dec? && !s.thread.Dec? ==> TakesSend(s, s'))
  }

  predicate Effect(s: State, s': State) {
    && s'.accepted == s.accepted && s'.tickets == s.tickets && Counts(s, s')
    && (Rests(s, s') || Queues(s, s') || TurnsAway(s, s') || SendsFirst(s, s') || Drops(s, s'))
  }

  lemma QueuesFacts(s: State, s': State)
    requires Queues(s, s')
    ensures TakesSend(s, s') && SameData(s, s') && s'.refused == s.refused && s'.lost == s.lost
  {
  }

  lemma SendsFacts(s: State, s': State)
    requires SendsFirst(s, s')
    ensures s'.pipe == s.pipe && Bufs(s.c) != []
  {
  }

  lemma DropsFacts(s: State, s': State)
    requires Drops(s, s')
    ensures SamePipe(s, s') && s'.done == s.done
  {
  }

  lemma StoreBufs(c: Core, b: Buf)
    requires c.dw == None
    ensures Bufs(c.(dw := Some(b))) == [b] + Bufs(c)
  {
  }

  /** A write that is taken shortens the first buffer, or removes it. */
  lemma WriteBufs(c: Core, low: bool, k: Kernel)
    requires c.dw == None && (low ==> c.high == []) && Pick(c, low) != [] && k.Takes?
    ensures var b, n := Pick(c, low)[0], Taken(Pick(c, low)[0], k);
            && Bufs(c) != [] && Bufs(c)[0] == b
            && Bufs(AfterWrite(c, low, k)) == if n == Left(b) then Bufs(c)[1..] else [Advanced(b, n)] + Bufs(c)[1..]
  {
    var q := Pick(c, low);
    assert Bufs(c) == c.high + c.low;
    assert Bufs(c)[1..] == if low then c.low[1..] else c.high[1..] + c.low;
    hide Taken, Left;
  }

  lemma PkgsJoin(a: seq<Buf>, b: seq<Buf>)
    ensures Pkgs(a + b) == Pkgs(a) + Pkgs(b)
  {
  }

  lemma HeadOfLists(high: seq<Buf>, low: seq<Buf>)
    requires Fresh(low)
    ensures Head(high + low) == Head(high)
  {
  }

  lemma ForcedDrops(s: State, report: bool, why: End)
    requires Sound(s) && (s.thread.Poll? || s.thread.Look?) && !s.c.kind.Invalid?
    ensures Drops(s, Forced(s, report, why)) && Effect(s, Forced(s, report, why))
  {
    assert Fresh(s.c.low) && s.cut == None;
    hide Sound, Uncomplete, Fresh, Bag;
    var s' := Forced(s, report, why);
    assert Bufs(s'.c) == AsSeq(s.c.dw);
    assert Bufs(s.c)[|AsSeq(s.c.dw)|..] == s.c.high + s.c.low;
    HeadOfLists(s.c.high, s.c.low);
  }

  /** A close discards what is stored, or nothing happens to the packages. */
  predicate Closes(s: State, s': State) {
    Effect(s, s') && s'.pipe == s.pipe && (Rests(s, s') || Drops(s, s'))
  }

  lemma ForcedCloses(s: State, report: bool, why: End)
    requires Sound(s) && (s.thread.Poll? || s.thread.Look?) && !s.c.kind.Invalid?
    ensures Closes(s, Forced(s, report, why))
  {
    ForcedDrops(s, report, why);
    hide Sound, Drops, Effect;
  }

  lemma JudgedEffect(s: State, nomore: bool, byClose: bool)
    requires Sound(s) && (s.thread.Poll? || s.thread.Look?) && !s.c.kind.Invalid?
    ensures Closes(s, Judged(s, nomore, byClose))
  {
    if nomore || s.c.kind.HalfWrite? {
      hide Sound, Closes, Forced;
      ForcedCloses(s, !s.c.kind.HalfRead?, if s.c.kind.HalfWrite? then HalfWritten else Quiet);
    } else {
      hide Sound, Drops;
      var s' := Judged(s, nomore, byClose);
      assert Bufs(s'.c) == Bufs(s.c) && s'.thread == Poll;
    }
  }

  lemma LookedEffect(s: State, dw: bool, byClose: bool)
    requires Sound(s) && s.thread.Look? && !s.c.kind.Invalid?
    ensures Effect(s, Looked(s, dw, byClose))
  {
    hide Judged;
    JudgedEffect(s, false, byClose);
    JudgedEffect(s, s.sending == 0, byClose);
  }

  lemma AppendPlace(c: Core, p: Pkg)
    requires AllLow(c.low)
    ensures var q, k := Bufs(c), Place(c, p);
            k <= |q| && AllLow(q[k..]) && Bufs(Append(c, p)) == q[..k] + [Buffer(p, 0)] + q[k..]
  {
    var q, k, b := Bufs(c), Place(c, p), [Buffer(p, 0)];
    if p.low {
      assert q[..k] == q && q[k..] == [] && Bufs(Append(c, p)) == q + b;
    } else {
      assert q[..k] == AsSeq(c.dw) + c.high && q[k..] == c.low;
      assert Bufs(Append(c, p)) == AsSeq(c.dw) + (c.high + b) + c.low;
    }
  }

  lemma AppendEffect(s: State, p: Pkg)
    requires Sound(s) && s.thread == Poll && !Refuses(s.c) && s.pipe != [] && s.pipe[0] == Send(p)
    ensures Queues(s, s.(pipe := s.pipe[1..], thread := Dec, c := Append(s.c, p)))
  {
    hide Bufs, AllLow, Fresh;
    AppendPlace(s.c, p);
  }

  lemma AfterPop(s: State, s1: State, s': State)
    requires s.pipe != [] && !s.pipe[0].Send? && s1 == s.(pipe := s.pipe[1..], due := s1.due) && Closes(s1, s')
    ensures Effect(s, s')
  {
  }

  lemma LooksCloses(s: State)
    requires s.thread.Poll?
    ensures Closes(s, s.(thread := Look(true, true)))
  {
  }

  lemma ClosePopped(s: State)
    requires Sound(s) && s.thread == Poll && s.pipe != [] && s.pipe[0].Close? && !s.c.kind.Invalid?
    ensures Effect(s, Popped(s.(pipe := s.pipe[1..]), s.pipe[0]))
  {
    var s0, cmd := s.(pipe := s.pipe[1..]), s.pipe[0];
    var s1 := s0.(due := if s.c.closing then s.due else cmd.due);
    assert Sound(s0) && Sound(s1);
    hide Forced, Judged, Sound, Closes, Effect;
    if cmd.shutdown {
      ForcedCloses(s0, !s.c.kind.HalfRead?, Shutdown);
      AfterPop(s, s0, Forced(s0, !s.c.kind.HalfRead?, Shutdown));
    } else if Empty(s.c) {
      var s' := s1.(thread := Look(true, true));
      LooksCloses(s1);
      AfterPop(s, s1, s');
    } else {
      JudgedEffect(s1, false, true);
      AfterPop(s, s1, Judged(s1, false, true));
    }
  }

  lemma PoppedEffect(s: State)
    requires Sound(s) && s.thread == Poll && s.pipe != []
    ensures Effect(s, Popped(s.(pipe := s.pipe[1..]), s.pipe[0]))
  {
    var cmd := s.pipe[0];
    match cmd
    case Send(p) =>
      hide Sound, Append;
      if !Refuses(s.c) { AppendEffect(s, p); }
    case Wake => hide Sound;
    case Close(_, _) =>
      if s.c.kind.Invalid? {
        hide Sound;
      } else {
        hide Effect, Sound;
        ClosePopped(s);
      }
  }

  lemma ReadEffect(s: State, heard: Heard)
    requires Sound(s) && s.thread == Poll && !s.c.kind.Invalid?
    ensures Effect(s, Read(s, heard))
  {
    hide Forced, Judged, Drops, Sound;
    JudgedEffect(s, false, false);
    ForcedCloses(s, true, Remote);
  }

  lemma EndedEffect(s: State)
    requires Sound(s) && s.thread.Force?
    ensures Effect(s, Ended(s, s.thread.report, s.thread.why))
  {
    var s' := Ended(s, s.thread.report, s.thread.why);
    assert Bufs(s'.c) == [] && Bufs(s.c) == AsSeq(s.c.dw);
    assert Bufs(s.c)[0..] == AsSeq(s.c.dw);
  }

  /** Both lists are discarded at once, with the lock held. */
  lemma AllDropped(s: State, s': State)
    requires Sound(s) && s.thread.Flush?
    requires s'.c == Shut(Freed(s.c)) && s'.pipe == s.pipe && s'.done == s.done && s'.wire == s.wire &&
             s'.torn == s.torn
    requires s'.refused == s.refused && s'.cut == Head(s.c.high)
    requires s'.lost == s.lost + Bag(s.c.high + s.c.low)
    ensures Drops(s, s')
  {
    hide Uncomplete, Fresh, Bag;
    var q := s.c.high + s.c.low;
    assert Bufs(s.c) == q && Bufs(s'.c) == [];
    assert q[|Bufs(s'.c)|..] == q;
    HeadOfLists(s.c.high, s.c.low);
  }

  lemma StillOpen(s: State)
    requires Sound(s) && (s.thread.Look? || s.thread.Force? || Flushes(s.thread))
    ensures !s.c.kind.Invalid?
  {
  }

  lemma HurtEffect(s: State)
    requires Sound(s) && s.thread.Flush?
    ensures Effect(s, Hurt(s))
  {
    hide Sound, Drops, Fresh, Uncomplete, Bag, Head;
    StillOpen(s);
    if s.c.closing || s.c.kind.HalfRead? {
      AllDropped(s, Hurt(s));
    } else {
      assert Rests(s, Hurt(s));
    }
  }

  lemma WriteEffect(s: State, low: bool, k: Kernel)
    requires Sound(s) && s.thread == Flush(low) && Pick(s.c, low) != [] && k.Takes?
    ensures var q := Pick(s.c, low);
            var n := Taken(q[0], k);
            var s' := s.(c := AfterWrite(s.c, low, k), wire := s.wire + Span(q[0].p, q[0].off, q[0].off + n));
            if n == Left(q[0]) then SendsFirst(s, s'.(done := s.done + [q[0].p]))
            else SendsFirst(s, s'.(thread := Raise)) && SendsFirst(s, Unlock(s'))
  {
    assert s.c.dw == None && (low ==> s.c.high == []) && s.lock == Server;
    var q := Pick(s.c, low);
    assert |Span(q[0].p, q[0].off, q[0].off + Taken(q[0], k))| == Taken(q[0], k);
    hide Sound, Span, Bufs, AfterWrite, Taken, Left;
    WriteBufs(s.c, low, k);
  }

  lemma FlushingEffect(s: State, k: Kernel)
    requires Sound(s) && s.thread.Flush?
    ensures Effect(s, Flushing(s, s.thread.low, k))
  {
    hide Hurt, AfterWrite, Sound, SendsFirst, Drops, Queues, Left, Taken, Rest;
    HurtEffect(s);
    if Pick(s.c, s.thread.low) != [] && k.Takes? { WriteEffect(s, s.thread.low, k); }
  }

  lemma LocalEffect(s: State)
    requires Sound(s)
    ensures s.thread.Raise? ==> s.c.low != [] && Effect(s, Unlock(s.(c := Raised(s.c))))
    ensures s.thread.Finish? ==> forall e :: Effect(s, Unlock(s.(c := Drained(s.c), end := e)))
    ensures s.thread == Poll ==> Effect(s, s.(lock := Server, c := TakeDirect(s.c), thread := Flush(false)))
  {
    hide Fresh, AllLow;
    if s.thread.Raise? { assert Bufs(Raised(s.c)) == Bufs(s.c); }
    if s.thread.Poll? { assert Bufs(TakeDirect(s.c)) == Bufs(s.c); }
  }

  lemma ShapeIsSound(s: State)
    requires Shape(s)
    ensures Sound(s)
  {
  }

  /** Nothing happens but that the thread moves, an event is raised or the count goes down. */
  lemma QuietEffect(s: State)
    ensures Effect(s, s) && Effect(s, s.(events := s.events + [Err]))
    ensures s.thread.Dec? ==> Effect(s, s.(sending := if s.sending > 0 then s.sending - 1 else 0, thread := Poll))
  {
    hide Bufs;
  }

  lemma PollEffect(s: State, a: Act)
    requires Sound(s) && s.thread == Poll
    ensures Effect(s, DoThread(s, a))
  {
    hide Popped, Read, Forced, Sound, TakeDirect, Effect;
    QuietEffect(s);
    LocalEffect(s);
    if a.Pop? && s.pipe != [] { PoppedEffect(s); }
    if !s.c.kind.Invalid? {
      if a.CanRead? { ReadEffect(s, a.heard); }
      ForcedEffect(s);
    }
  }

  lemma ForcedEffect(s: State)
    requires Sound(s) && s.thread == Poll && !s.c.kind.Invalid?
    ensures Effect(s, Forced(s, !s.c.kind.HalfRead?, Eof))
  {
    hide Sound, Forced, Drops;
    ForcedDrops(s, !s.c.kind.HalfRead?, Eof);
  }

  lemma ThreadEffect(s: State, a: Act)
    requires Sound(s)
    ensures Effect(s, DoThread(s, a))
  {
    if s.thread.Look? || s.thread.Force? || Flushes(s.thread) { StillOpen(s); }
    hide Looked, Ended, Flushing, Sound, Drained, Raised, Effect;
    QuietEffect(s);
    LocalEffect(s);
    match s.thread
    case Poll =>
      PollEffect(s, a);
      hide DoThread;
    case Look(dw, byClose) => LookedEffect(s, dw, byClose);
    case Force(report, why) => EndedEffect(s);
    case Flush(low) => if a.Go? { FlushingEffect(s, a.k); }
    case _ =>
  }
}
