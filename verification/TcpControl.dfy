/** What a step of the socket thread tells the service, and how closing proceeds. */
module TcpControl {
  import opened Wrappers
  import opened TcpSocket
  import opened TcpProtocol
  import opened TcpShape

  /** The reading side is closed: SOCKET_CLOSE has been raised. */
  predicate Over(c: Core) {
    c.kind.HalfRead? || c.kind.Invalid?
  }

  predicate Tells(s: State, s': State) {
    || (s'.events == s.events && Over(s'.c) == Over(s.c))
    || (s'.events == s.events + [Err] && Over(s'.c) == Over(s.c))
    || (s'.events == s.events + [Data] && !Over(s.c) && !Over(s'.c))
    || (s'.events == s.events + [Closed] && !Over(s.c) && Over(s'.c))
  }

  /** A request to close is taken, the first one of a socket that is not closing yet. */
  predicate FirstClose(s: State, s': State) {
    && s.thread.Poll? && s.pipe != [] && s.pipe[0].Close? && !s.c.closing && !s.c.kind.Invalid?
    && s'.due == s.pipe[0].due
  }

  /** Ways to end that presuppose a failed write. */
  predicate ByPeer(why: End) {
    why == HalfWritten || why == Remote
  }

  predicate Proceeds(s: State, s': State) {
    // closing starts with a request, and only ends with the socket
    && (s'.due == s.due || FirstClose(s, s'))
    && (s'.c.closing || s'.thread.Look? ==> s.c.closing || s.thread.Look? || FirstClose(s, s'))
    && (s.c.closing ==> s'.c.closing)
    // nomore_sending_data
    && (s'.thread.Look? && !s'.thread.dw ==>
          s.thread.Look? && s'.c == s.c && s'.due == s.due && (s.thread.dw ==> s.c.dw == None))
    && (s'.thread.Force? && s'.thread.why == Quiet ==>
          s'.due == s.due && (s'.thread == s.thread || (s.thread.Look? && !s.thread.dw && !s.c.kind.HalfWrite?)))
    // how it ends
    && (s'.end == s.end || (s.thread.Force? && s'.end == s.thread.why) || s'.end == WriteError
        || (s'.end == Flushed && s.thread.Finish? && s.c.closing && !s.c.kind.Invalid?))
    && (s.c.kind.Invalid? || s.thread.Force? ==> s'.c.kind.Invalid? || s'.thread.Force?)
    && (s.c.kind.HalfWrite? ==> s'.c.kind.HalfWrite? || s'.c.kind.Invalid?)
    && (s'.end != s.end ==> s'.c.kind.Invalid? && s'.due == s.due)
    && (s.c.kind.Invalid? ==> s'.c.kind.Invalid? && s'.end == s.end)
    && (s'.c.kind.Invalid? && !s.c.kind.Invalid? ==>
          (s.thread.Force? && s'.end == s.thread.why) || s'.end == WriteError || s'.end == Flushed)
    && (s'.thread.Force? && ByPeer(s'.thread.why) ==>
          s'.c.closing == s.c.closing && (s'.thread == s.thread || s.c.kind.HalfWrite?))
    && (s'.thread.Force? ==> (s'.thread.why != Flushed && s'.thread.why != Open) || s'.thread == s.thread)
  }

  predicate SameKind(c: Core, c': Core) {
    c'.kind == c.kind && c'.closing == c.closing
  }

  lemma ListsKeepKind(c: Core)
    ensures SameKind(c, TakeDirect(c)) && (c.low != [] ==> SameKind(c, Raised(c)))
    ensures forall p :: SameKind(c, Append(c, p))
    ensures forall low, k: Kernel :: Pick(c, low) != [] && k.Takes? ==> SameKind(c, AfterWrite(c, low, k))
  {
    hide Taken, Left;
  }

  predicate Talks(s: State, s': State) {
    Tells(s, s') && Proceeds(s, s')
  }

  lemma JudgedTalks(s: State, s1: State, nomore: bool, byClose: bool)
    requires !s.c.kind.Invalid? && s1 == s.(pipe := s1.pipe, due := s1.due) && (s1.due == s.due || FirstClose(s, s1))
    requires s.thread.Poll? || (s.thread.Look? && s1 == s)
    requires nomore ==> s.thread.Look? && !s.thread.dw
    requires byClose ==> s.c.closing || s.thread.Look? || FirstClose(s, s1)
    ensures Talks(s, Judged(s1, nomore, byClose))
  {
    hide Bag, Head;
  }

  lemma CloseTalks(s: State)
    requires s.thread.Poll? && s.pipe != [] && s.pipe[0].Close? && !s.pipe[0].shutdown && !s.c.kind.Invalid?
    ensures Talks(s, Popped(s.(pipe := s.pipe[1..]), s.pipe[0]))
  {
    var s1 := s.(pipe := s.pipe[1..], due := if s.c.closing then s.due else s.pipe[0].due);
    hide Judged;
    if Empty(s.c) {
      assert Talks(s, s1.(thread := Look(true, true)));
    } else {
      hide Talks;
      JudgedTalks(s, s1, false, true);
    }
  }

  lemma PoppedTalks(s: State)
    requires s.thread.Poll? && s.pipe != []
    ensures Talks(s, Popped(s.(pipe := s.pipe[1..]), s.pipe[0]))
  {
    ListsKeepKind(s.c);
    hide Judged, Append, Bag, Head;
    if s.pipe[0].Close? && !s.pipe[0].shutdown && !s.c.kind.Invalid? {
      hide Popped, Talks;
      CloseTalks(s);
    }
  }

  lemma LookedTalks(s: State)
    requires Sound(s) && s.thread.Look?
    ensures Talks(s, Looked(s, s.thread.dw, s.thread.byClose))
  {
    var dw, byClose := s.thread.dw, s.thread.byClose;
    hide Judged;
    if dw && s.c.dw == None {
      assert Talks(s, s.(thread := Look(false, byClose)));
    } else {
      hide Talks;
      if dw { JudgedTalks(s, s, false, byClose); } else { JudgedTalks(s, s, s.sending == 0, byClose); }
    }
  }

  lemma ReadTalks(s: State, heard: Heard)
    requires Sound(s) && s.thread.Poll? && !s.c.kind.Invalid?
    ensures Talks(s, Read(s, heard))
  {
    hide Judged, Bag, Head;
    if heard.Zero? && s.c.closing { JudgedTalks(s, s, false, false); }
  }

  lemma HurtTalks(s: State)
    requires Sound(s) && s.thread.Flush?
    ensures Talks(s, Hurt(s))
  {
    hide Bag, Head, ListsInv;
  }

  lemma SendingTalks(s: State, k: Kernel)
    requires Sound(s) && s.thread.Flush? && (k != Broken || Pick(s.c, s.thread.low) == [])
    ensures Talks(s, Flushing(s, s.thread.low, k))
  {
    ListsKeepKind(s.c);
    hide AfterWrite, Span, Taken, Left, Uncomplete, ListsInv, Hurt;
  }

  lemma FlushingTalks(s: State, k: Kernel)
    requires Sound(s) && s.thread.Flush?
    ensures Talks(s, Flushing(s, s.thread.low, k))
  {
    hide Talks, Hurt;
    if k == Broken && Pick(s.c, s.thread.low) != [] { HurtTalks(s); } else { SendingTalks(s, k); }
  }

  /** The other steps of the socket thread. */
  lemma LocalTalks(s: State)
    requires Sound(s)
    ensures Talks(s, s)
    ensures s.thread.Force? ==> Talks(s, Ended(s, s.thread.report, s.thread.why))
    ensures s.thread.Finish? ==>
              Talks(s, Unlock(s.(c := Drained(s.c), end := if s.c.closing &&
                                 !s.c.kind.Invalid? then Flushed else s.end)))
    ensures s.thread.Raise? ==> s.c.low != [] && Talks(s, Unlock(s.(c := Raised(s.c))))
    ensures s.thread.Poll? ==> Talks(s, s.(lock := Server, c := TakeDirect(s.c), thread := Flush(false)))
    ensures s.thread.Poll? ==> Talks(s, s.(events := s.events + [Err]))
    ensures s.thread.Poll? ==> forall report :: Talks(s, Forced(s, report, Eof))
  {
    ListsKeepKind(s.c);
    hide TakeDirect, Raised, Bag, Head, ListsInv, AsSeq;
  }

  lemma DecTalks(s: State, a: Act)
    requires s.thread.Dec?
    ensures Talks(s, DoThread(s, a))
  {
  }

  lemma ThreadTalks(s: State, a: Act)
    requires Sound(s)
    ensures Talks(s, DoThread(s, a))
  {
    hide Popped, Read, Looked, Forced, Ended, Flushing, Drained, Raised, TakeDirect, Talks, ListsInv;
    LocalTalks(s);
    match s.thread
    case Poll =>
      if a.Pop? && s.pipe != [] { PoppedTalks(s); }
      if a.CanRead? && !s.c.kind.Invalid? { ReadTalks(s, a.heard); }
    case Look(dw, byClose) => LookedTalks(s);
    case Flush(low) => if a.Go? { FlushingTalks(s, a.k); }
    case Dec => DecTalks(s, a);
    case _ =>
  }
}
