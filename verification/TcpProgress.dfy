/** What a request, an event or a send leads to: what has been told, sent and closed once the thread
    that serves it is through with it. */
module TcpProgress {
  import opened Wrappers
  import opened TcpSocket
  import opened TcpProtocol
  import opened TcpShape
  import opened TcpEffect
  import opened TcpOrder
  import opened TcpStream
  import opened TcpAccount
  import opened TcpControl
  import opened TcpClosing
  import opened TcpTheorem
  import opened TcpRuns

  // ----- requests to close, and the end of the stream -----

  /** The next `k` steps of the socket thread. */
  function Alone(s: State, k: nat): State
    decreases k
  {
    if k == 0 then s else Alone(Do(s, Go(Busy)), k - 1)
  }

  /** Nothing is stored, nothing was left of a direct write, and no send is under way. */
  predicate Settled(s: State) {
    s.c.high == [] && s.c.low == [] && s.c.dw == None && s.sending == 0
  }

  /** Closed, and what was stored is gone. */
  predicate ClosedDown(s: State, s': State) {
    && s'.c == Core(Invalid, s.c.closing, [], [], None, s.c.wb)
    && s'.lost == s.lost + Bag(Bufs(s.c))
  }

  /** The socket thread is back, and of what others see only the socket and its events may have changed. */
  predicate Back(s: State, s': State) {
    && s'.thread.Poll? && s'.lock.Free?
    && s'.senders == s.senders && s'.sending == s.sending && s'.wire == s.wire && s'.done == s.done
    && s'.accepted == s.accepted && s'.refused == s.refused && s'.clock == s.clock && s'.tickets == s.tickets
  }

  /** SOCKET_CLOSE is raised unless that was done when the reading side was closed. */
  function Told(s: State): seq<Event> {
    if s.c.kind.HalfRead? then s.events else s.events + [Closed]
  }

  /** What holds of the socket whenever its thread waits for something to do. */
  ghost predicate Ready(s: State) {
    s.thread.Poll? && s.lock.Free? && !s.c.kind.Invalid? && SocketInv(s) && EventInv(s)
  }

  lemma Bags(c: Core)
    ensures Bag(c.high + c.low) + Bag(AsSeq(c.dw)) == Bag(Bufs(c))
  {
    var a, b := AsSeq(c.dw), c.high + c.low;
    assert Bufs(c) == a + b;
    PkgsJoin(a, b);
  }

  lemma ForcedDown(s: State, why: End)
    requires s.thread.Poll? && s.lock.Free?
    ensures var s' := Do(Forced(s, !s.c.kind.HalfRead?, why), Go(Busy));
            ClosedDown(s, s') && Back(s, s') && s'.events == Told(s) && s'.pipe == s.pipe && s'.end == why
  {
    Bags(s.c);
    hide Bag, Head, Bufs;
  }

  lemma Resting(s: State, k: nat)
    requires s.thread.Poll?
    ensures Alone(s, k) == s
    decreases k
  {
    if k > 0 { Resting(Do(s, Go(Busy)), k - 1); }
  }

  /** `nomore_sending_data`: both lists, then the direct write, then the sends under way. */
  lemma LookLeads(s: State, byClose: bool)
    requires s.thread.Poll? && s.lock.Free? && Empty(s.c)
    ensures var s' := Alone(s.(thread := Look(true, byClose)), 3);
            s' == Alone(Judged(s, Settled(s), byClose), 1)
  {
    var s1 := s.(thread := Look(true, byClose));
    hide Judged;
    if s.c.dw == None {
      var s2 := s.(thread := Look(false, byClose));
      assert Do(s1, Go(Busy)) == s2;
      JudgedAnyway(s, s2, Settled(s), byClose);
      assert Do(s2, Go(Busy)) == Judged(s, Settled(s), byClose);
      assert Alone(s1, 3) == Alone(s2, 2) == Alone(Judged(s, Settled(s), byClose), 1);
    } else {
      JudgedAnyway(s, s1, false, byClose);
      assert Do(s1, Go(Busy)) == Judged(s, false, byClose);
      JudgedRests(s, false, byClose);
      assert Alone(s1, 3) == Alone(Judged(s, false, byClose), 2);
    }
  }

  /** The answer does not depend on where the thread was. */
  lemma JudgedAnyway(s: State, s1: State, nomore: bool, byClose: bool)
    requires s.thread.Poll? && s1 == s.(thread := s1.thread)
    ensures Judged(s1, nomore, byClose) == Judged(s, nomore, byClose)
  {
    hide Bag, Head;
  }

  /** And after it the thread is back in one step. */
  lemma JudgedRests(s: State, nomore: bool, byClose: bool)
    requires s.thread.Poll? && s.lock.Free?
    ensures var s1 := Judged(s, nomore, byClose);
            Alone(s1, 2) == Alone(s1, 1)
    ensures var s1, s' := Judged(s, nomore, byClose), Alone(Judged(s, nomore, byClose), 1);
            if nomore || s.c.kind.HalfWrite?
            then ClosedDown(s, s') && Back(s, s') && s'.events == Told(s) && s'.pipe == s.pipe
            else if byClose
            then Back(s, s') && s'.events == Told(s) && s'.pipe == s.pipe && s'.lost == s.lost &&
                 s'.c == s.c.(kind := HalfRead, closing := true)
            else s' == s
  {
    var s1 := Judged(s, nomore, byClose);
    if nomore || s.c.kind.HalfWrite? {
      var why := if s.c.kind.HalfWrite? then HalfWritten else Quiet;
      ForcedDown(s, why);
      assert s1 == Forced(s, !s.c.kind.HalfRead?, why);
      hide Judged, Forced, Do;
      Resting(Do(s1, Go(Busy)), 0);
      Resting(Do(s1, Go(Busy)), 1);
      assert Alone(s1, 2) == Alone(Do(s1, Go(Busy)), 1);
      assert Alone(s1, 1) == Alone(Do(s1, Go(Busy)), 0);
    } else {
      assert s1.thread.Poll?;
      Resting(s1, 1);
      Resting(s1, 2);
    }
  }

  /** A request to close raises SOCKET_CLOSE, once.  It closes the socket at once if that was asked for, if writing
      has failed, or if there is nothing more to send; otherwise it makes it a closing one. */
  lemma CloseLeads(s: State)
    requires Ready(s) && s.pipe != [] && s.pipe[0].Close?
    ensures var s' := Alone(Do(s, Pop), 3);
            && Back(s, s') && s'.pipe == s.pipe[1..] && s'.events == Told(s) && Closed in s'.events
            && if s.pipe[0].shutdown || s.c.kind.HalfWrite? || Settled(s) then ClosedDown(s, s')
               else s'.c == s.c.(kind := HalfRead, closing := true) && s'.lost == s.lost
  {
    var s1 := s.(pipe := s.pipe[1..]);
    var s2 := s1.(due := if s.c.closing then s.due else s.pipe[0].due);
    if s.pipe[0].shutdown {
      assert Do(s, Pop) == Forced(s1, !s.c.kind.HalfRead?, Shutdown);
      ForcedDown(s1, Shutdown);
      hide Do, Forced;
      Resting(Do(Forced(s1, !s.c.kind.HalfRead?, Shutdown), Go(Busy)), 2);
      assert Alone(Do(s, Pop), 3) == Alone(Do(Do(s, Pop), Go(Busy)), 2);
    } else if Empty(s.c) {
      assert Do(s, Pop) == s2.(thread := Look(true, true));
      hide Do, Judged;
      LookLeads(s2, true);
      JudgedRests(s2, Settled(s2), true);
    } else {
      assert Do(s, Pop) == Judged(s2, false, true);
      hide Do, Judged;
      JudgedRests(s2, false, true);
      RestsLonger(Judged(s2, false, true));
    }
  }

  lemma RestsLonger(s: State)
    requires Alone(s, 2) == Alone(s, 1) && Alone(s, 1).thread.Poll?
    ensures Alone(s, 3) == Alone(s, 1)
  {
    var s1 := Do(s, Go(Busy));
    hide Do;
    assert Alone(s, 3) == Alone(Do(Do(s1, Go(Busy)), Go(Busy)), 0);
    assert Alone(s, 2) == Do(s1, Go(Busy)) && Alone(s, 1) == s1;
  }

  /** The end of the stream: SOCKET_CLOSE has been raised afterwards, and the socket is closed if writing has failed
      or if it was closing and had nothing more to send. */
  lemma EofLeads(s: State)
    requires Ready(s)
    ensures var s' := Alone(Do(s, CanRead(Zero)), 3);
            && Back(s, s') && s'.pipe == s.pipe && s'.events == Told(s) && Closed in s'.events
            && if s.c.kind.HalfWrite? || (s.c.closing && Settled(s)) then ClosedDown(s, s')
               else s'.c == s.c.(kind := HalfRead) && s'.lost == s.lost
  {
    var s1 := Do(s, CanRead(Zero));
    if s.c.closing {
      if Empty(s.c) {
        assert s1 == s.(thread := Look(true, false));
        hide Do, Judged;
        LookLeads(s, false);
        JudgedRests(s, Settled(s), false);
      } else {
        assert s1 == Judged(s, false, false) == s;
        hide Do;
        Resting(s, 3);
      }
    } else if s.c.kind.HalfWrite? {
      assert s1 == Forced(s, !s.c.kind.HalfRead?, Remote);
      ForcedDown(s, Remote);
      hide Do, Forced;
      Resting(Do(s1, Go(Busy)), 2);
      assert Alone(s1, 3) == Alone(Do(s1, Go(Busy)), 2);
    } else {
      assert s1 == ReadClosed(s);
      assert s1.c == s.c.(kind := HalfRead) && s1.events == Told(s) && Back(s, s1) && s1.pipe == s.pipe;
      hide Do, ReadClosed;
      Resting(s1, 3);
    }
  }

  /** A peer that hangs up: closed, whatever is still stored. */
  lemma HangUpLeads(s: State)
    requires Ready(s)
    ensures var s' := Alone(Do(s, HangUp), 3);
            Back(s, s') && s'.pipe == s.pipe && s'.events == Told(s) && Closed in s'.events && ClosedDown(s, s')
  {
    var s1 := Do(s, HangUp);
    assert s1 == Forced(s, !s.c.kind.HalfRead?, Eof);
    ForcedDown(s, Eof);
    hide Do, Forced;
    Resting(Do(s1, Go(Busy)), 2);
    assert Alone(s1, 3) == Alone(Do(s1, Go(Busy)), 2);
  }

  lemma ReadyState(s0: State, acts: seq<Act>)
    requires Opened(s0) && var s := Run(s0, acts); s.thread.Poll? && s.lock.Free? && !s.c.kind.Invalid?
    ensures Ready(Run(s0, acts))
  {
    RunKeeps(s0, acts);
    hide Run, OrderInv, CountInv, StreamInv, PipeInv, DueInv, TornInv, LockInv, SendersInv, ListsInv, ClosedOnce;
  }

  lemma RunThree(s0: State, acts: seq<Act>, a: Act)
    ensures Run(s0, acts + [a, Go(Busy), Go(Busy), Go(Busy)]) == Alone(Do(Run(s0, acts), a), 3)
  {
    hide Do;
    var g := Go(Busy);
    var s := Run(s0, acts);
    RunMore(s0, acts, [a, g, g, g]);
    assert [a, g, g, g] == [a] + [g, g, g] && [g, g, g] == [g] + [g, g] && [g, g] == [g] + [g];
    RunFirst(s, a, [g, g, g]);
    RunFirst(Do(s, a), g, [g, g]);
    RunFirst(Do(Do(s, a), g), g, [g]);
    OneAct(Do(Do(Do(s, a), g), g), g);
    hide Run;
    assert Alone(Do(s, a), 3) == Do(Do(Do(Do(s, a), g), g), g);
  }

  /** In every run: the socket thread takes a request to close and goes on. */
  lemma CloseAnswered(s0: State, acts: seq<Act>)
    requires Opened(s0)
    requires var s := Run(s0, acts);
             s.thread.Poll? && s.lock.Free? && !s.c.kind.Invalid? && s.pipe != [] && s.pipe[0].Close?
    ensures var s, s' := Run(s0, acts), Run(s0, acts + [Pop, Go(Busy), Go(Busy), Go(Busy)]);
            && Back(s, s') && s'.pipe == s.pipe[1..] && s'.events == Told(s) && Closed in s'.events
            && if s.pipe[0].shutdown || s.c.kind.HalfWrite? || Settled(s) then ClosedDown(s, s')
               else s'.c == s.c.(kind := HalfRead, closing := true) && s'.lost == s.lost
  {
    hide Run, Do, Back, ClosedDown, Settled, Ready, Told;
    ReadyState(s0, acts);
    CloseLeads(Run(s0, acts));
    RunThree(s0, acts, Pop);
  }

  /** In every run: the stream ends. */
  lemma EofAnswered(s0: State, acts: seq<Act>)
    requires Opened(s0)
    requires var s := Run(s0, acts); s.thread.Poll? && s.lock.Free? && !s.c.kind.Invalid?
    ensures var s, s' := Run(s0, acts), Run(s0, acts + [CanRead(Zero), Go(Busy), Go(Busy), Go(Busy)]);
            && Back(s, s') && s'.pipe == s.pipe && s'.events == Told(s) && Closed in s'.events
            && if s.c.kind.HalfWrite? || (s.c.closing && Settled(s)) then ClosedDown(s, s')
               else s'.c == s.c.(kind := HalfRead) && s'.lost == s.lost
  {
    hide Run, Do, Back, ClosedDown, Settled, Ready, Told;
    ReadyState(s0, acts);
    EofLeads(Run(s0, acts));
    RunThree(s0, acts, CanRead(Zero));
  }

  // ----- the same, whatever the other threads do meanwhile -----

  /** The thread is at work on closing, or on finding out whether it is to close. */
  predicate Answering(s: State) {
    s.thread.Force? || (s.thread.Look? && s.thread.byClose)
  }

  /** SOCKET_CLOSE has been raised, and the socket is closing or closed. */
  predicate Answered(s: State) {
    Closed in s.events && (s.c.closing || s.c.kind.Invalid?)
  }

  /** How many steps of its own the thread needs at most. */
  function Ahead(s: State): nat {
    if s.thread.Force? then 1 else if s.thread.Look? then (if s.thread.dw then 3 else 2) else 0
  }

  /** The thread goes on, and does not have to wait for the lock. */
  predicate Turn(s: State, a: Act) {
    a.Go? && (s.lock.Free? || !s.thread.Force?)
  }

  function Turns(s: State, acts: seq<Act>): nat {
    if acts == [] then 0
    else Turns(s, acts[..|acts| - 1]) + if Turn(Run(s, acts[..|acts| - 1]), acts[|acts| - 1]) then 1 else 0
  }

  lemma JudgedAnswers(s: State, nomore: bool)
    ensures var s' := Judged(s, nomore, true);
            s'.thread.Force? || (s'.thread.Poll? && s'.c.closing && s'.c.kind.HalfRead?)
  {
    hide Bag, Head;
  }

  lemma LookAnswers(s: State)
    requires s.thread.Look? && s.thread.byClose && EventInv(Looked(s, s.thread.dw, true))
    ensures var s' := Looked(s, s.thread.dw, true);
            Answered(s') || (Answering(s') && Ahead(s') < Ahead(s))
  {
    JudgedAnswers(s, false);
    JudgedAnswers(s, s.sending == 0);
    hide Judged, ClosedOnce;
  }

  lemma ForceAnswers(s: State, a: Act)
    requires s.thread.Force? && EventInv(DoThread(s, a))
    ensures var s' := DoThread(s, a);
            if a.Go? && s.lock.Free? then Answered(s') else s' == s
  {
    hide Bag, Head, ClosedOnce;
  }

  /** A step of the thread brings the answer nearer, or it waits. */
  lemma ThreadAnswers(s: State, a: Act)
    requires Answering(s) && EventInv(DoThread(s, a))
    ensures var s' := DoThread(s, a);
            Answered(s') || (Answering(s') && Ahead(s') + (if Turn(s, a) then 1 else 0) <= Ahead(s))
  {
    if s.thread.Force? {
      ForceAnswers(s, a);
    } else if a.Go? {
      LookAnswers(s);
    }
    hide Looked, EventInv, Ended;
  }

  /** Nothing takes it back. */
  lemma StaysAnswered(s: State, a: Act)
    requires Inv(s) && Answered(s)
    ensures Answered(Do(s, a))
  {
    hide Inv, DoSender, DoThread;
    StepKeeps(s, a);
    InvSays(s);
    match a
    case Work(t, n) =>
      if t in s.senders { SenderMoves(s, t, n); }
    case Begin(_, _, _) =>
    case Stop(_) =>
    case _ =>
      ThreadTalks(s, a);
      hide Talks, Answered;
      TalksAnswered(s, DoThread(s, a));
  }

  lemma TalksAnswered(s: State, s': State)
    requires Talks(s, s') && Answered(s)
    ensures Answered(s')
  {
  }

  lemma InvSays(s: State)
    requires Inv(s)
    ensures Shape(s) && Sound(s) && EventInv(s)
  {
    hide LockInv, SendersInv, SocketInv, ListsInv, OrderInv, CountInv, StreamInv, Accounted, PipeInv, DueInv, TornInv;
    ShapeIsSound(s);
  }

  lemma OthersWait(s: State, a: Act)
    requires Shape(s) && (a.Work? || a.Begin? || a.Stop?)
    ensures var s' := Do(s, a);
            s'.thread == s.thread && s'.events == s.events && s'.c.closing == s.c.closing && s'.c.kind == s.c.kind
  {
    if a.Work? && a.t in s.senders { SenderMoves(s, a.t, a.n); }
    hide DoSender, Shape;
  }

  lemma StepAnswers(s: State, a: Act)
    requires Inv(s) && Answering(s)
    ensures var s' := Do(s, a);
            Answered(s') || (Answering(s') && Ahead(s') + (if Turn(s, a) then 1 else 0) <= Ahead(s))
  {
    hide Inv, DoSender, DoThread, EventInv;
    InvSays(s);
    StepKeeps(s, a);
    InvSays(Do(s, a));
    if a.Work? || a.Begin? || a.Stop? {
      OthersWait(s, a);
    } else {
      ThreadAnswers(s, a);
    }
  }

  /** Once the thread is at it, three steps of its own at which it need not wait for the lock are enough. */
  lemma {:induction false} TurnsAnswer(s: State, acts: seq<Act>)
    requires Inv(s) && Answering(s)
    ensures var s' := Run(s, acts);
            Inv(s') && (Answered(s') || (Answering(s') && Ahead(s') + Turns(s, acts) <= Ahead(s)))
    decreases |acts|
  {
    hide Inv, Do, Answering, Answered, Ahead, Turn;
    if acts == [] {
      assert Run(s, acts) == s && Turns(s, acts) == 0;
    } else {
      var before, a := acts[..|acts| - 1], acts[|acts| - 1];
      TurnsAnswer(s, before);
      var s1 := Run(s, before);
      StepKeeps(s1, a);
      if Answered(s1) { StaysAnswered(s1, a); } else { StepAnswers(s1, a); }
    }
  }

  /** What a taken request to close starts. */
  lemma CloseStarts(s: State)
    requires Ready(s) && s.pipe != [] && s.pipe[0].Close? && EventInv(Do(s, Pop))
    ensures Answered(Do(s, Pop)) || (Answering(Do(s, Pop)) && Ahead(Do(s, Pop)) <= 3)
  {
    var s1 := s.(pipe := s.pipe[1..]);
    var s2 := s1.(due := if s.c.closing then s.due else s.pipe[0].due);
    JudgedAnswers(s2, false);
    hide Judged, Forced, ClosedOnce;
    if s.pipe[0].shutdown {
      assert Do(s, Pop) == Forced(s1, !s.c.kind.HalfRead?, Shutdown);
      assert Forced(s1, !s.c.kind.HalfRead?, Shutdown).thread.Force? by { ForcedIs(s1, !s.c.kind.HalfRead?, Shutdown); }
    } else if Empty(s.c) {
      assert Do(s, Pop) == s2.(thread := Look(true, true));
    } else {
      assert Do(s, Pop) == Judged(s2, false, true);
    }
  }

  lemma ForcedIs(s: State, report: bool, why: End)
    ensures Forced(s, report, why).thread.Force?
  {
    hide Bag, Head;
  }

  /** In every run, whatever the senders and the services do after the request has been taken: the thread raises
      SOCKET_CLOSE, and closes or marks the socket, within three steps at which it need not wait for the lock. */
  lemma CloseGetsThrough(s0: State, acts: seq<Act>, more: seq<Act>)
    requires Opened(s0)
    requires var s := Run(s0, acts);
             s.thread.Poll? && s.lock.Free? && !s.c.kind.Invalid? && s.pipe != [] && s.pipe[0].Close?
    requires Turns(Run(s0, acts + [Pop]), more) >= 3
    ensures Answered(Run(s0, acts + [Pop] + more))
  {
    hide Run, Do, Ready, Answered, Turns, Inv, Opened, Answering, Ahead;
    ReadyState(s0, acts);
    RunKeeps(s0, acts + [Pop]);
    RunMore(s0, acts, [Pop]);
    OneAct(Run(s0, acts), Pop);
    var s1 := Run(s0, acts + [Pop]);
    InvSays(s1);
    CloseStarts(Run(s0, acts));
    RunMore(s0, acts + [Pop], more);
    if Answered(s1) {
      StillAnswered(s1, more);
    } else {
      TurnsAnswer(s1, more);
      AheadIsPositive(Run(s1, more));
    }
  }

  lemma AheadIsPositive(s: State)
    ensures Answering(s) ==> Ahead(s) > 0
  {
  }

  lemma {:induction false} StillAnswered(s: State, acts: seq<Act>)
    requires Inv(s) && Answered(s)
    ensures var s' := Run(s, acts); Inv(s') && Answered(s')
    decreases |acts|
  {
    hide Inv, Do, Answered;
    if acts != [] {
      StillAnswered(s, acts[..|acts| - 1]);
      StepKeeps(Run(s, acts[..|acts| - 1]), acts[|acts| - 1]);
      StaysAnswered(Run(s, acts[..|acts| - 1]), acts[|acts| - 1]);
    }
  }
}
